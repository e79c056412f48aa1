/**
 The registers of the write path of flashemul/Interface.bsv, updated in place:
 each rule and method does what the transition system BurstPath says.
 */
module BurstDevice {
  import opened BurstPath

  /** The write path of mkInterfaceRequest.  The ghost fields record what goes in and out. */
  class WritePath {
    var bufferedWriteCount: seq<nat>
    var writeBuffer: seq<seq<bv64>>
    var writeBufferOffset: seq<nat>
    var writeFlushCounter: nat
    var writeFlushTag: nat
    var nextBurstQ: seq<nat>
    var writeFifo: seq<bv64>
    ghost var accepted: seq<seq<bv64>>
    ghost var bursts: seq<nat>
    ghost var starts: seq<nat>
    ghost var fed: seq<bv64>
    ghost var taken: nat
    ghost var readDone: seq<nat>

    ghost function State(): State
      reads this
    {
      BurstPath.State(bufferedWriteCount, writeBuffer, writeBufferOffset,
                      writeFlushCounter, writeFlushTag, nextBurstQ,
                      accepted, bursts, starts, fed, taken, readDone)
    }

    ghost predicate Valid()
      reads this
    {
      Shaped(State()) && writeFifo == fed[taken..]
    }

    constructor ()
      ensures Valid() && State() == Initial()
    {
      bufferedWriteCount, writeBuffer, writeBufferOffset := Each(0), Each([]), Each(0);
      writeFlushCounter, writeFlushTag, nextBurstQ, writeFifo := 0, 0, [], [];
      accepted, bursts, starts, fed, taken, readDone := Each([]), [], [], [], 0, [];
    }

    /** `done` is the tag of the pageReadDone indication, or none when negative. */
    method StartWriteFlush() returns (fired: bool, done: int)
      requires Valid()
      modifies this
      ensures Valid() && State() == Step(old(State()), Event.StartWriteFlush)
      ensures fired == old(Enabled(State(), Event.StartWriteFlush))
      ensures readDone == if done >= 0 then old(readDone) + [done] else old(readDone)
    {
      fired, done := writeFlushCounter == 0 && nextBurstQ != [], -1;
      if fired {
        var nextTag := nextBurstQ[0];
        nextBurstQ := nextBurstQ[1..];
        writeFlushTag := nextTag;
        writeFlushCounter := BURST;
        var offset := writeBufferOffset[nextTag];
        var absoffset := offset + PAGE_BYTES * nextTag;
        bursts, starts := bursts + [nextTag], starts + [absoffset];
        if offset + 16 * 8 >= PAGE_BYTES {
          writeBufferOffset := writeBufferOffset[nextTag := 0];
          done := nextTag;
          readDone := readDone + [nextTag];
        } else {
          writeBufferOffset := writeBufferOffset[nextTag := offset + 16 * 8];
        }
      }
    }

    method DriveWriteFlush() returns (fired: bool)
      requires Valid()
      modifies this
      ensures Valid() && State() == Step(old(State()), Event.DriveWriteFlush)
      ensures fired == old(Enabled(State(), Event.DriveWriteFlush))
      ensures fired <==> old(writeFlushCounter) > 0 && old(writeBuffer)[writeFlushTag] != []
                         && |old(writeFifo)| < 128
      ensures fired ==>
                && writeFifo == old(writeFifo) + [old(writeBuffer)[writeFlushTag][0]]
                && writeBuffer == old(writeBuffer)[writeFlushTag := old(writeBuffer)[writeFlushTag][1..]]
    {
      var tag := writeFlushTag;
      fired := writeFlushCounter > 0 && writeBuffer[tag] != [] && |writeFifo| < WRITE_FIFO_DEPTH;
      if fired {
        var data := writeBuffer[tag][0];
        writeBuffer := writeBuffer[tag := writeBuffer[tag][1..]];
        writeFlushCounter := writeFlushCounter - 1;
        writeFifo := writeFifo + [data];
        fed := fed + [data];
      }
    }

    /** The engine takes a word out of its FIFO. */
    method EngineTake() returns (fired: bool)
      requires Valid()
      modifies this
      ensures Valid() && State() == Step(old(State()), Event.EngineTake)
      ensures fired == old(Enabled(State(), Event.EngineTake))
      ensures writeFifo == if fired then old(writeFifo)[1..] else old(writeFifo)
    {
      fired := writeFifo != [];
      if fired {
        writeFifo := writeFifo[1..];
        taken := taken + 1;
      }
    }

    method WriteWord(data: bv64, tag: nat) returns (fired: bool)
      requires Valid()
      modifies this
      ensures Valid() && State() == Step(old(State()), Event.WriteWord(data, tag))
      ensures fired == old(Enabled(State(), Event.WriteWord(data, tag)))
      ensures fired <==> tag < 64 && |old(writeBuffer)[tag]| < 24
                         && (old(bufferedWriteCount)[tag] >= 15 ==> |old(nextBurstQ)| < 8)
      ensures fired ==> writeBuffer == old(writeBuffer)[tag := old(writeBuffer)[tag] + [data]]
    {
      fired := tag < TAGS && |writeBuffer[tag]| < BUFFER_DEPTH
               && (bufferedWriteCount[tag] + 1 >= BURST ==> |nextBurstQ| < BURST_QUEUE_DEPTH);
      if fired {
        writeBuffer := writeBuffer[tag := writeBuffer[tag] + [data]];
        accepted := accepted[tag := accepted[tag] + [data]];
        if bufferedWriteCount[tag] + 1 >= 16 {
          bufferedWriteCount := bufferedWriteCount[tag := 0];
          nextBurstQ := nextBurstQ + [tag];
        } else {
          bufferedWriteCount := bufferedWriteCount[tag := bufferedWriteCount[tag] + 1];
        }
      }
    }

    /** Any schedule of rules and method calls is a run of the transition system. */
    method Perform(es: seq<Event>)
      requires Valid()
      modifies this
      ensures Valid() && State() == Run(old(State()), es)
    {
      for k := 0 to |es|
        invariant Valid() && Run(State(), es[k..]) == Run(old(State()), es)
      {
        assert es[k..][1..] == es[k + 1..];
        match es[k]
        case WriteWord(data, tag) => var _ := WriteWord(data, tag);
        case StartWriteFlush => var _, _ := StartWriteFlush();
        case DriveWriteFlush => var _ := DriveWriteFlush();
        case EngineTake => var _ := EngineTake();
      }
    }
  }
}
