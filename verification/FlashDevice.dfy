/**
 The globals of projects/flash_multinode/flash.cpp updated in place: each lock
 section and callback does what FlashHost says.
 */
module FlashDevice {
  import opened FlashHost
  import FlashCluster
  import FlashRuns
  import FlashChecks

  class Globals {
    const eraseTagTable: array<Entry>
    const writeTagTable: array<Entry>
    const readTagTable: array<Entry>
    var curErasesInFlight: int
    var curWritesInFlight: int
    var curReadsInFlight: int
    var flashStatus: map<Addr, Status>
    var readBuffers: seq<seq<nat>>
    var writeBuffers: seq<seq<nat>>
    var testPass: bool
    ghost var errors: nat

    ghost function State(): Host
      reads this, eraseTagTable, writeTagTable, readTagTable
    {
      Host(Lane(eraseTagTable[..], curErasesInFlight), Lane(writeTagTable[..], curWritesInFlight),
           Lane(readTagTable[..], curReadsInFlight), flashStatus, readBuffers, writeBuffers, testPass, errors)
    }

    ghost predicate Valid()
      reads this, eraseTagTable, writeTagTable, readTagTable
    {
      && eraseTagTable != writeTagTable && writeTagTable != readTagTable && readTagTable != eraseTagTable
      && Formed(State())
    }

    /** init_dma: a host whose globals these are can start any of the tests. */
    constructor ()
      ensures Valid() && FlashRuns.Starting(FlashCluster.Node(State(), map[], FlashCluster.Ready, 0, 0, 0))
      ensures forall a :: StatusOf(State(), a) == UNINIT
    {
      var nowhere := Entry(false, Addr(0, 0, 0, 0));
      eraseTagTable := new Entry[NUM_TAGS](_ => nowhere);
      writeTagTable := new Entry[NUM_TAGS](_ => nowhere);
      readTagTable := new Entry[NUM_TAGS](_ => nowhere);
      curErasesInFlight, curWritesInFlight, curReadsInFlight := 0, 0, 0;
      flashStatus, testPass, errors := map[], true, 0;
      var zeros := seq(PAGE_WORDS, _ => 0);
      readBuffers := seq(NUM_TAGS, _ => zeros);
      writeBuffers := seq(NUM_TAGS, _ => zeros);
    }

    function TableOf(k: Kind): array<Entry> {
      match k
      case Erase => eraseTagTable
      case Write => writeTagTable
      case Read => readTagTable
    }

    /** One lock section of waitIdleEraseTag, waitIdleWriteBuffer and waitIdleReadBuffer; a negative
        result means none is idle and the caller tries again. */
    method IdleTag(k: Kind) returns (tag: int)
      requires Valid()
      modifies TableOf(k)
      ensures Valid()
      ensures var t := old(FirstIdle(LaneOf(State(), k).tags, NUM_TAGS));
              if t == NUM_TAGS then tag == -1 && State() == old(State())
              else tag == t && State() == Acquire(old(State()), k, t)
    {
      var table := TableOf(k);
      ghost var tags := table[..];
      for t := 0 to NUM_TAGS
        invariant table[..] == tags && State() == old(State())
        invariant forall u :: 0 <= u < t ==> tags[u].busy
      {
        if !table[t].busy {
          table[t] := table[t].(busy := true);
          return t;
        }
      }
      return -1;
    }

    method EraseBlock(a: Addr, tag: nat)
      requires Valid() && tag < NUM_TAGS
      modifies this`curErasesInFlight, this`flashStatus, eraseTagTable
      ensures Valid() && State() == Issue(old(State()), Erase, a, tag)
    {
      curErasesInFlight := curErasesInFlight + 1;
      eraseTagTable[tag] := eraseTagTable[tag].(addr := a);
      flashStatus := flashStatus[a := ERASED];
    }

    method WritePage(a: Addr, tag: nat)
      requires Valid() && tag < NUM_TAGS
      modifies this`curWritesInFlight, this`flashStatus
      ensures Valid() && State() == Issue(old(State()), Write, a, tag)
    {
      curWritesInFlight := curWritesInFlight + 1;
      if !(a in flashStatus && flashStatus[a] == BAD) {
        flashStatus := flashStatus[a := WRITTEN];
      }
    }

    method ReadPage(a: Addr, tag: nat)
      requires Valid() && tag < NUM_TAGS
      modifies this`curReadsInFlight, readTagTable
      ensures Valid() && State() == Issue(old(State()), Read, a, tag)
    {
      curReadsInFlight := curReadsInFlight + 1;
      readTagTable[tag] := readTagTable[tag].(addr := a);
    }

    /** checkReadData: the loop over the valid words decides exactly what the status calls for. */
    method CheckReadData(tag: nat) returns (pass: bool)
      requires Valid() && tag < NUM_TAGS
      ensures var a := readTagTable[tag].addr;
              && (pass <==> DataAcceptable(StatusOf(State(), a), a, readBuffers[tag]))
              && (pass <==> FlashChecks.RightPage(StatusOf(State(), a), a, readBuffers[tag]))
    {
      var e := readTagTable[tag].addr;
      pass := true;
      var status := if e in flashStatus then flashStatus[e] else UNINIT;
      if status == WRITTEN {
        var numErrors := 0;
        for word := 0 to VALID_WORDS
          invariant pass <==> HoldsGolden(e, readBuffers[tag], word)
          invariant pass <==> numErrors == 0
        {
          var goldenData := Golden(e, word);
          if goldenData != readBuffers[tag][word] {
            numErrors := numErrors + 1;
            pass := false;
          }
        }
      } else if status == ERASED {
        if readBuffers[tag][0] != ALL_ONES && readBuffers[tag][0] != 0 {
          pass := false;
        }
      } else if status != BAD {
        pass := false;
      }
    }

    /** readDone up to its lock section. */
    method ReadDoneCheck(checkData: bool, tag: nat)
      requires Valid() && tag < NUM_TAGS
      modifies this`testPass
      ensures Valid() && State() == CheckRead(old(State()), checkData, tag)
      ensures var a := readTagTable[tag].addr;
              testPass ==
              (old(testPass) && (checkData ==> FlashChecks.RightPage(StatusOf(State(), a), a, readBuffers[tag])))
    {
      if checkData {
        var pass := CheckReadData(tag);
        testPass := testPass && pass;
      }
    }

    method ReadDone(tag: nat)
      requires Valid() && tag < NUM_TAGS
      modifies this`curReadsInFlight, this`testPass, this`errors, readTagTable
      ensures Valid() && State() == Complete(old(State()), Read, tag, false)
    {
      curReadsInFlight := curReadsInFlight - 1;
      if curReadsInFlight < 0 {
        curReadsInFlight := 0;
        errors := errors + 1;
      }
      if !readTagTable[tag].busy {
        testPass := false;
        errors := errors + 1;
      }
      readTagTable[tag] := readTagTable[tag].(busy := false);
    }

    method WriteDone(tag: nat)
      requires Valid() && tag < NUM_TAGS
      modifies this`curWritesInFlight, this`testPass, this`errors, writeTagTable
      ensures Valid() && State() == Complete(old(State()), Write, tag, false)
    {
      curWritesInFlight := curWritesInFlight - 1;
      if curWritesInFlight < 0 {
        curWritesInFlight := 0;
        errors := errors + 1;
      }
      if !writeTagTable[tag].busy {
        testPass := false;
        errors := errors + 1;
      }
      writeTagTable[tag] := writeTagTable[tag].(busy := false);
    }

    method EraseDone(tag: nat, status: nat)
      requires Valid() && tag < NUM_TAGS
      modifies this`curErasesInFlight, this`flashStatus, this`testPass, this`errors, eraseTagTable
      ensures Valid() && State() == Complete(old(State()), Erase, tag, status != 0)
    {
      if status != 0 {
        flashStatus := flashStatus[eraseTagTable[tag].addr := BAD];
      }
      curErasesInFlight := curErasesInFlight - 1;
      if curErasesInFlight < 0 {
        testPass := false;
        curErasesInFlight := 0;
        errors := errors + 1;
      }
      if !eraseTagTable[tag].busy {
        testPass := false;
        errors := errors + 1;
      }
      eraseTagTable[tag] := eraseTagTable[tag].(busy := false);
    }
  }
}
