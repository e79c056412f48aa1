/**
 The command credits and channel-partitioned buffers of
 projects/test/flashinterface.cpp and flashinterface.h.  Each method of the
 class is one section of code under a lock, or what a callback does after
 releasing it, so what all of them keep holds however they interleave.
 */
module FlashInterface {

  const DMA_BUFFERS := 4
  const READ_WAYS := 128 / DMA_BUFFERS
  const WRITE_WAYS := 64 / DMA_BUFFERS
  const READ_BUFFERS := DMA_BUFFERS * READ_WAYS
  const WRITE_BUFFERS := DMA_BUFFERS * WRITE_WAYS
  const BUFFER_BYTES := 16 * 1024

  // ----- the layout of the buffers -----

  /** Where a buffer is: which DMA allocation, from which byte of it. */
  datatype Region = Region(alloc: nat, offset: nat)

  predicate Apart(r: Region, s: Region) {
    r.alloc != s.alloc || r.offset + BUFFER_BYTES <= s.offset || s.offset + BUFFER_BYTES <= r.offset
  }

  /** Buffer `i` is among those of the channel. */
  predicate Ours(channel: nat, i: int, ways: nat) {
    channel < DMA_BUFFERS && ways * channel <= i < ways * (channel + 1)
  }

  /** The buffers of the channels below `n` are in their channel's own allocation, one behind the other, whole
      and apart. */
  ghost predicate LaidOut(at: seq<Region>, n: nat, ways: nat) {
    && |at| == ways * n
    && (forall k :: 0 <= k < |at| ==> at[k].alloc < n && at[k].offset + BUFFER_BYTES <= BUFFER_BYTES * ways)
    && (forall c: nat, k {:trigger Ours(c, k, ways)} :: c < n && Ours(c, k, ways) ==>
         k < |at| && at[k] == Region(c, (k - ways * c) * BUFFER_BYTES))
    && (forall k, l :: 0 <= k < l < |at| ==> Apart(at[k], at[l]))
  }

  function Row(channel: nat, ways: nat): (row: seq<Region>)
    ensures |row| == ways && forall k :: 0 <= k < ways ==> row[k] == Region(channel, k * BUFFER_BYTES)
  {
    if ways == 0 then [] else Row(channel, ways - 1) + [Region(channel, (ways - 1) * BUFFER_BYTES)]
  }

  lemma RowLaysOut(at: seq<Region>, n: nat, ways: nat)
    requires n < DMA_BUFFERS && LaidOut(at, n, ways)
    ensures LaidOut(at + Row(n, ways), n + 1, ways)
  {
    var row := Row(n, ways);
    assert ways * (n + 1) == |at| + ways;
    forall c: nat, k | c < n + 1 && Ours(c, k, ways)
      ensures k < |at + row| && (at + row)[k] == Region(c, (k - ways * c) * BUFFER_BYTES)
    {
      if c < n {
        assert (at + row)[k] == at[k];
      } else {
        assert c == n;
        assert (at + row)[k] == row[k - |at|];
      }
    }
    forall k, l | 0 <= k < l < |at + row| ensures Apart((at + row)[k], (at + row)[l]) {
      if l < |at| {
        assert Apart(at[k], at[l]);
      } else if k >= |at| {
        assert (k - |at| + 1) * BUFFER_BYTES <= (l - |at|) * BUFFER_BYTES;
      }
    }
  }

  /** The loops of flashifc_alloc. */
  method LayOut(ways: nat) returns (at: seq<Region>)
    ensures LaidOut(at, DMA_BUFFERS, ways)
  {
    at := [];
    for i := 0 to DMA_BUFFERS
      invariant LaidOut(at, i, ways)
    {
      ghost var before := at;
      for j := 0 to ways
        invariant at == before + Row(i, j)
      {
        at := at + [Region(i, j * BUFFER_BYTES)];
      }
      RowLaysOut(before, i, ways);
    }
  }

  /** Every buffer belongs to one channel. */
  lemma OneOwner(i: nat, ways: nat)
    requires i < DMA_BUFFERS * ways
    ensures exists channel :: Ours(channel, i, ways)
    ensures forall c, d :: Ours(c, i, ways) && Ours(d, i, ways) ==> c == d
  {
    assert Ours(0, i, ways) || Ours(1, i, ways) || Ours(2, i, ways) || Ours(3, i, ways);
  }

  // ----- the globals -----

  /** What writePage does with a request, before anything is sent. */
  datatype Outcome = Ignored | Waiting | Credited

  /** What callers and the device do. */
  datatype Call =
    | Grant(count: nat)
    | TakeWriteBuffer(channel: nat)
    | TakeReadBuffer
    | Spend(write: bool, bufidx: int)
    | Send(write: bool, bufidx: int)
    | Done(write: bool, bufidx: int)
    | AfterDone(write: bool)

  /** The credits the device gives in the first `n` calls. */
  function Credits(calls: seq<Call>, n: nat): nat
    requires n <= |calls|
  {
    if n == 0 then 0 else Credits(calls, n - 1) + if calls[n - 1].Grant? then calls[n - 1].count else 0
  }

  /** The last five fields are the record: `granted` credits were given by the device, `accepted` commands
      spent one and `sent` of those have been sent; `writing` and `reading` are the buffers at the device. */
  class Interface {
    var curCmdCountBudget: int
    var curWritesInFlight: int
    var curReadsInFlight: int
    const srcBufferBusy: array<bool>
    const dstBufferBusy: array<bool>
    var granted: nat
    var accepted: nat
    var sent: nat
    var writing: set<int>
    var reading: set<int>

    /** What holds whatever buffers the callers send and the device answers for: no command is sent without
        a credit, and no credit is spent twice. */
    ghost predicate Balanced()
      reads this
    {
      && srcBufferBusy != dstBufferBusy
      && srcBufferBusy.Length == WRITE_BUFFERS && dstBufferBusy.Length == READ_BUFFERS
      && curCmdCountBudget >= 0 && granted == curCmdCountBudget + accepted
      && sent <= accepted
    }

    /** What holds while callers send buffers they hold, once each, and the device answers each once. */
    ghost predicate Valid()
      reads this, srcBufferBusy, dstBufferBusy
    {
      && Balanced()
      && curWritesInFlight == |writing| && curReadsInFlight == |reading|
      && (forall i :: i in writing ==> 0 <= i < WRITE_BUFFERS && srcBufferBusy[i])
      && (forall i :: i in reading ==> 0 <= i < READ_BUFFERS && dstBufferBusy[i])
    }

    constructor ()
      ensures Valid() && fresh(srcBufferBusy) && fresh(dstBufferBusy)
      ensures granted == accepted == sent == 0 && writing == {} && reading == {}
      ensures (forall i :: 0 <= i < WRITE_BUFFERS ==> !srcBufferBusy[i])
           && (forall i :: 0 <= i < READ_BUFFERS ==> !dstBufferBusy[i])
    {
      curCmdCountBudget, curWritesInFlight, curReadsInFlight := 0, 0, 0;
      srcBufferBusy := new bool[WRITE_BUFFERS](_ => false);
      dstBufferBusy := new bool[READ_BUFFERS](_ => false);
      granted, accepted, sent, writing, reading := 0, 0, 0, {}, {};
    }

    /** The device's reqFlashCmd. */
    method ReqFlashCmd(count: nat)
      requires Balanced()
      modifies this`curCmdCountBudget, this`granted
      ensures Balanced() && (old(Valid()) ==> Valid()) && granted == old(granted) + count
    {
      curCmdCountBudget := curCmdCountBudget + count;
      granted := granted + count;
    }

    /** The first half of writePage, once around its waiting loop; the test of the index lets one too many
        through, and every negative one. */
    method SpendForWrite(bufidx: int) returns (outcome: Outcome)
      requires Balanced()
      modifies this`curCmdCountBudget, this`accepted
      ensures Balanced() && (old(Valid()) ==> Valid())
      ensures accepted == old(accepted) + if outcome.Credited? then 1 else 0
      ensures outcome.Ignored? <==> bufidx > WRITE_BUFFERS
      ensures outcome.Waiting? <==> bufidx <= WRITE_BUFFERS && old(granted == accepted)
    {
      if bufidx > WRITE_BUFFERS {
        return Ignored;
      }
      if curCmdCountBudget <= 0 {
        return Waiting;
      }
      curCmdCountBudget := curCmdCountBudget - 1;
      accepted := accepted + 1;
      return Credited;
    }

    /** The first half of readPage likewise, without any test of the index. */
    method SpendForRead() returns (outcome: Outcome)
      requires Balanced()
      modifies this`curCmdCountBudget, this`accepted
      ensures Balanced() && (old(Valid()) ==> Valid())
      ensures accepted == old(accepted) + if outcome.Credited? then 1 else 0
      ensures outcome == if old(granted == accepted) then Waiting else Credited
    {
      if curCmdCountBudget <= 0 {
        return Waiting;
      }
      curCmdCountBudget := curCmdCountBudget - 1;
      accepted := accepted + 1;
      return Credited;
    }

    /** The second half of writePage, of a caller that has spent a credit for it. */
    method SendWrite(bufidx: int)
      requires Balanced() && sent < accepted
      modifies this`curWritesInFlight, this`writing, this`sent
      ensures Balanced() && sent == old(sent) + 1
      ensures curWritesInFlight == old(curWritesInFlight) + 1 && writing == old(writing) + {bufidx}
      ensures old(Valid()) && 0 <= bufidx < WRITE_BUFFERS && srcBufferBusy[bufidx] && bufidx !in old(writing) ==>
                Valid()
    {
      curWritesInFlight := curWritesInFlight + 1;
      writing := writing + {bufidx};
      sent := sent + 1;
    }

    /** The lock section of the device's writeDone: of a write it was sent, it finds the buffer in use. */
    method WriteDone(bufidx: nat) returns (unused: bool)
      requires Balanced() && bufidx < WRITE_BUFFERS
      modifies this`curWritesInFlight, this`writing, srcBufferBusy
      ensures Balanced() && writing == old(writing) - {bufidx} && curWritesInFlight == old(curWritesInFlight) - 1
      ensures srcBufferBusy[..] == old(srcBufferBusy[..])[bufidx := false]
      ensures unused == !old(srcBufferBusy[bufidx])
      ensures old(Valid()) && bufidx in old(writing) ==> Valid() && !unused
    {
      curWritesInFlight := curWritesInFlight - 1;
      unused := !srcBufferBusy[bufidx];
      srcBufferBusy[bufidx] := false;
      writing := writing - {bufidx};
    }

    /** The rest of writeDone, after it has released the lock: while the books are right it has nothing to do. */
    method AfterWriteDone() returns (negative: bool)
      requires Balanced()
      modifies this`curWritesInFlight
      ensures Balanced() && negative == old(curWritesInFlight < 0)
      ensures curWritesInFlight == if negative then 0 else old(curWritesInFlight)
      ensures old(Valid()) ==> Valid() && !negative
    {
      negative := curWritesInFlight < 0;
      if negative {
        curWritesInFlight := 0;
      }
    }

    /** The second half of readPage, of a caller that has spent a credit for it. */
    method SendRead(bufidx: int)
      requires Balanced() && sent < accepted
      modifies this`curReadsInFlight, this`reading, this`sent
      ensures Balanced() && sent == old(sent) + 1
      ensures curReadsInFlight == old(curReadsInFlight) + 1 && reading == old(reading) + {bufidx}
      ensures old(Valid()) && 0 <= bufidx < READ_BUFFERS && dstBufferBusy[bufidx] && bufidx !in old(reading) ==>
                Valid()
    {
      curReadsInFlight := curReadsInFlight + 1;
      reading := reading + {bufidx};
      sent := sent + 1;
    }

    /** The lock section of the device's readDone: of a read it was sent, it finds the buffer in use. */
    method ReadDone(bufidx: nat) returns (unused: bool)
      requires Balanced() && bufidx < READ_BUFFERS
      modifies this`curReadsInFlight, this`reading, dstBufferBusy
      ensures Balanced() && reading == old(reading) - {bufidx} && curReadsInFlight == old(curReadsInFlight) - 1
      ensures dstBufferBusy[..] == old(dstBufferBusy[..])[bufidx := false]
      ensures unused == !old(dstBufferBusy[bufidx])
      ensures old(Valid()) && bufidx in old(reading) ==> Valid() && !unused
    {
      curReadsInFlight := curReadsInFlight - 1;
      unused := !dstBufferBusy[bufidx];
      dstBufferBusy[bufidx] := false;
      reading := reading - {bufidx};
    }

    /** The rest of readDone, after it has released the lock: while the books are right it has nothing to do. */
    method AfterReadDone() returns (negative: bool)
      requires Balanced()
      modifies this`curReadsInFlight
      ensures Balanced() && negative == old(curReadsInFlight < 0)
      ensures curReadsInFlight == if negative then 0 else old(curReadsInFlight)
      ensures old(Valid()) ==> Valid() && !negative
    {
      negative := curReadsInFlight < 0;
      if negative {
        curReadsInFlight := 0;
      }
    }

    /** The lowest free buffer of the channel is handed out, and no other changes hands. */
    method GetIdleWriteBuffer(channel: nat) returns (ret: int)
      requires Balanced() && channel < DMA_BUFFERS
      modifies srcBufferBusy
      ensures Balanced() && (old(Valid()) ==> Valid() && ret !in writing)
      ensures ret == -1 <==> forall i :: Ours(channel, i, WRITE_WAYS) ==> old(srcBufferBusy[..])[i]
      ensures ret == -1 ==> srcBufferBusy[..] == old(srcBufferBusy[..])
      ensures ret != -1 ==>
                && Ours(channel, ret, WRITE_WAYS)
                && !old(srcBufferBusy[..])[ret]
                && (forall i :: Ours(channel, i, WRITE_WAYS) && i < ret ==> old(srcBufferBusy[..])[i])
                && srcBufferBusy[..] == old(srcBufferBusy[..])[ret := true]
    {
      ret := -1;
      var i := WRITE_WAYS * channel;
      while i < WRITE_WAYS * (channel + 1)
        invariant WRITE_WAYS * channel <= i <= WRITE_WAYS * (channel + 1)
        invariant forall k :: WRITE_WAYS * channel <= k < i ==> srcBufferBusy[k]
        invariant srcBufferBusy[..] == old(srcBufferBusy[..])
        modifies srcBufferBusy
      {
        if !srcBufferBusy[i] {
          srcBufferBusy[i] := true;
          ret := i;
          break;
        }
        i := i + 1;
      }
    }

    method GetIdleReadBuffer() returns (ret: int)
      requires Balanced()
      modifies dstBufferBusy
      ensures Balanced() && (old(Valid()) ==> Valid() && ret !in reading)
      ensures ret == -1 <==> forall i :: 0 <= i < READ_BUFFERS ==> old(dstBufferBusy[..])[i]
      ensures ret == -1 ==> dstBufferBusy[..] == old(dstBufferBusy[..])
      ensures ret != -1 ==>
                && 0 <= ret < READ_BUFFERS
                && !old(dstBufferBusy[..])[ret]
                && (forall i :: 0 <= i < ret ==> old(dstBufferBusy[..])[i])
                && dstBufferBusy[..] == old(dstBufferBusy[..])[ret := true]
    {
      ret := -1;
      for i := 0 to READ_BUFFERS
        invariant forall k :: 0 <= k < i ==> dstBufferBusy[k]
        invariant dstBufferBusy[..] == old(dstBufferBusy[..])
        modifies dstBufferBusy
      {
        if !dstBufferBusy[i] {
          dstBufferBusy[i] := true;
          ret := i;
          break;
        }
      }
    }

    /** Whether a call can come now: commands are sent by callers that have spent a credit, and completions
        are for buffers there are. */
    predicate Comes(call: Call)
      reads this
    {
      match call
      case Grant(_) => true
      case TakeWriteBuffer(channel) => channel < DMA_BUFFERS
      case TakeReadBuffer => true
      case Spend(_, _) => true
      case Send(_, _) => sent < accepted
      case Done(write, b) => 0 <= b < if write then WRITE_BUFFERS else READ_BUFFERS
      case AfterDone(_) => true
    }

    /** Whether it keeps to the rules: callers send buffers they hold, once each, and the device answers for
        each once. */
    predicate Keeps(call: Call)
      requires srcBufferBusy.Length == WRITE_BUFFERS && dstBufferBusy.Length == READ_BUFFERS
      reads this, srcBufferBusy, dstBufferBusy
    {
      match call
      case Send(write, b) =>
        if write then 0 <= b < WRITE_BUFFERS && srcBufferBusy[b] && b !in writing
        else 0 <= b < READ_BUFFERS && dstBufferBusy[b] && b !in reading
      case Done(write, b) => b in if write then writing else reading
      case _ => true
    }

    method Do(call: Call)
      requires Balanced() && Comes(call)
      modifies this, srcBufferBusy, dstBufferBusy
      ensures Balanced() && (old(Valid() && Keeps(call)) ==> Valid())
      ensures granted == old(granted) + if call.Grant? then call.count else 0
      ensures sent == old(sent) + if call.Send? then 1 else 0
    {
      match call
      case Grant(count) => ReqFlashCmd(count);
      case TakeWriteBuffer(channel) => var _ := GetIdleWriteBuffer(channel);
      case TakeReadBuffer => var _ := GetIdleReadBuffer();
      case Spend(write, b) =>
        if write {
          var _ := SpendForWrite(b);
        } else {
          var _ := SpendForRead();
        }
      case Send(write, b) =>
        if write {
          SendWrite(b);
        } else {
          SendRead(b);
        }
      case Done(write, b) =>
        if write {
          var _ := WriteDone(b);
        } else {
          var _ := ReadDone(b);
        }
      case AfterDone(write) =>
        if write {
          var _ := AfterWriteDone();
        } else {
          var _ := AfterReadDone();
        }
    }

    /** Over any schedule of calls no more commands are sent than credits were spent, and no more spent than
        granted; if all calls keep to the rules, the books of buffers and counters stay right too. */
    method Perform(calls: seq<Call>) returns (kept: bool)
      requires Balanced()
      modifies this, srcBufferBusy, dstBufferBusy
      ensures Balanced() && sent <= accepted <= granted
      ensures granted == old(granted) + Credits(calls, |calls|)
      ensures old(Valid()) && kept ==> Valid()
    {
      kept := true;
      for k := 0 to |calls|
        invariant Balanced() && (old(Valid()) && kept ==> Valid())
        invariant granted == old(granted) + Credits(calls, k)
      {
        if Comes(calls[k]) {
          kept := kept && Keeps(calls[k]);
          Do(calls[k]);
        }
      }
    }
  }
}
