/**
 The host's tag pool of flashemul/main.cpp and the command and page-tag queues
 of flashemul/Interface.bsv, updated in place.  Each lock section, rule or
 method leaves its object showing what the step of PagePath says, whatever the
 rest of the system `s` is doing.
 */
module PageDevice {
  import opened BurstPath
  import opened PagePath

  class TagPool {
    const readTagStatus: array<int>
    var pageReadTotal: nat
    var pageWriteTotal: nat

    ghost predicate Shows(s: System)
      reads this, readTagStatus
    {
      && readTagStatus.Length == TAGS
      && readTagStatus[..] == s.readTagStatus
      && pageReadTotal == s.pageReadTotal && pageWriteTotal == s.pageWriteTotal
    }

    constructor ()
      ensures Shows(Boot())
    {
      readTagStatus := new int[TAGS](_ => 0);
      pageReadTotal, pageWriteTotal := 0, 0;
      new;
      assert readTagStatus[..] == Each(0);
    }

    /** One scan of readPage; a negative result means the caller goes back to waiting. */
    method ReadPage(pageIdx: bv64, ghost s: System) returns (tag: int)
      requires Formed(s) && Shows(s)
      modifies readTagStatus
      ensures Shows(Issue(s, false, pageIdx))
      ensures tag == var t := FirstIdle(s.readTagStatus, TAGS); if t == TAGS then -1 else t
      ensures readTagStatus[..] == if tag < 0 then s.readTagStatus else s.readTagStatus[tag := 8192]
    {
      for i := 0 to TAGS
        invariant readTagStatus[..] == s.readTagStatus
        invariant forall u :: 0 <= u < i ==> s.readTagStatus[u] != 0
      {
        if readTagStatus[i] == 0 {
          readTagStatus[i] := PAGE_BYTES;
          return i;
        }
      }
      return -1;
    }

    method WritePage(pageIdx: bv64, ghost s: System) returns (tag: int)
      requires Formed(s) && Shows(s)
      modifies readTagStatus
      ensures Shows(Issue(s, true, pageIdx))
      ensures tag == var t := FirstIdle(s.readTagStatus, WRITE_TAGS); if t == WRITE_TAGS then -1 else t
      ensures readTagStatus[..] == if tag < 0 then s.readTagStatus else s.readTagStatus[tag := 8192]
    {
      for i := 0 to WRITE_TAGS
        invariant readTagStatus[..] == s.readTagStatus
        invariant forall u :: 0 <= u < i ==> s.readTagStatus[u] != 0
      {
        if readTagStatus[i] == 0 {
          readTagStatus[i] := PAGE_BYTES;
          return i;
        }
      }
      return -1;
    }

    /** The lock section of pageReadDone; `stray` is the message about a page that was not requested. */
    method PageReadDone(tag: nat, ghost s: System) returns (stray: bool)
      requires Formed(s) && Shows(s) && s.indications != [] && s.indications[0] == ReadDone(tag)
      modifies readTagStatus
      ensures Shows(Handle(s))
      ensures Handle(s).strays == s.strays + (if stray then 1 else 0)
      ensures stray == (s.readTagStatus[tag] == 0) && readTagStatus[..] == s.readTagStatus[tag := 0]
    {
      stray := readTagStatus[tag] == 0;
      readTagStatus[tag] := 0;
    }

    /** The rest of pageReadDone, after it has released the lock. */
    method CountRead(ghost s: System)
      requires Formed(s) && Shows(s) && s.uncounted > 0
      modifies this`pageReadTotal
      ensures Shows(CountPage(s)) && pageReadTotal == old(pageReadTotal) + 1
    {
      pageReadTotal := pageReadTotal + 1;
    }

    method PageWriteDone(tag: nat, ghost s: System)
      requires Formed(s) && Shows(s) && s.indications != [] && s.indications[0] == WriteDone(tag)
      modifies this, readTagStatus
      ensures Shows(Handle(s))
      ensures pageWriteTotal == old(pageWriteTotal) + 1 && pageReadTotal == old(pageReadTotal)
      ensures readTagStatus[..] == s.readTagStatus[tag := 0]
    {
      readTagStatus[tag] := 0;
      pageWriteTotal := pageWriteTotal + 1;
    }

    /** One scan of waitTagFlush: whether it may return. */
    method TagsFlushed() returns (flushed: bool)
      requires readTagStatus.Length == TAGS
      ensures flushed <==> FirstBusy(readTagStatus[..], TAGS) == TAGS
    {
      var i := 0;
      while i < TAGS && readTagStatus[i] == 0
        invariant i <= TAGS && forall u :: 0 <= u < i ==> readTagStatus[u] == 0
      {
        i := i + 1;
      }
      flushed := i >= TAGS;
    }
  }

  class PageQueues {
    var bluedbmCommand: seq<Command>
    var writeTagQ: seq<nat>
    var curWriteCount: nat

    ghost predicate Shows(s: System)
      reads this
    {
      bluedbmCommand == s.bluedbmCommand && writeTagQ == s.writeTagQ && curWriteCount == s.curWriteCount
    }

    constructor ()
      ensures Shows(Boot())
    {
      bluedbmCommand, writeTagQ, curWriteCount := [], [], 0;
    }

    /** The request methods readPage and writePage; not `taken` means the command FIFO is full. */
    method Request(c: Command, ghost s: System) returns (taken: bool, failed: bool)
      requires Formed(s) && Shows(s) && s.requests != [] && s.requests[0] == c && (c.tag < TAGS || c.write)
      modifies this
      ensures Shows(Deliver(s))
      ensures failed <==> Deliver(s).fails > s.fails
      ensures taken <==> Deliver(s).requests == s.requests[1..]
      ensures failed == (c.tag >= 64) && taken == (failed || |old(bluedbmCommand)| < 64)
      ensures bluedbmCommand == if taken && !failed then old(bluedbmCommand) + [c] else old(bluedbmCommand)
    {
      taken, failed := true, c.write && c.tag >= TAGS;
      if !failed {
        if |bluedbmCommand| < COMMAND_DEPTH {
          bluedbmCommand := bluedbmCommand + [c];
        } else {
          taken := false;
        }
      }
    }

    /** The platform's rule around getCommand and readPage. */
    method ServeCommand(ghost s: System)
      requires Formed(s) && Shows(s) && bluedbmCommand != []
      modifies this
      ensures Shows(Serve(s))
      ensures var c, room := old(bluedbmCommand)[0], |old(writeTagQ)| < 64;
              && bluedbmCommand == (if c.write && !room then old(bluedbmCommand) else old(bluedbmCommand)[1..])
              && writeTagQ == if c.write && room then old(writeTagQ) + [c.tag] else old(writeTagQ)
    {
      var c := bluedbmCommand[0];
      if !c.write {
        bluedbmCommand := bluedbmCommand[1..];
      } else if |writeTagQ| < TAG_QUEUE_DEPTH {
        writeTagQ := writeTagQ + [bluedbmCommand[0].tag];
        bluedbmCommand := bluedbmCommand[1..];
      }
    }

    /** readWord: the tag that goes with the word, and whether pageWriteDone is raised. */
    method ReadWord(ghost s: System) returns (tag: nat, pageWriteDone: bool)
      requires Formed(s) && Shows(s) && writeTagQ != []
      modifies this
      ensures Shows(NextWord(s))
      ensures NextWord(s).wordsOut == s.wordsOut + [tag]
      ensures NextWord(s).pagesWritten == if pageWriteDone then s.pagesWritten + [tag] else s.pagesWritten
      ensures tag == old(writeTagQ)[0] && pageWriteDone == (old(curWriteCount) == 1023)
      ensures writeTagQ == if pageWriteDone then old(writeTagQ)[1..] else old(writeTagQ)
    {
      tag, pageWriteDone := writeTagQ[0], false;
      if curWriteCount + 1 >= PAGE_BYTES / 8 {
        writeTagQ := writeTagQ[1..];
        curWriteCount := 0;
        pageWriteDone := true;
      } else {
        curWriteCount := curWriteCount + 1;
      }
    }
  }
}
