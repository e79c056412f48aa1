/**
 The emulated flash of projects/test/storagebridge.cpp: a flat byte array per
 channel behaves as a map from page address to page.
 */
module FlashStore {

  const PAGE_SIZE := 8192 + 128
  const BUS_EMUL_SIZE := PAGE_SIZE * (1024 * 1024 / 8)
  const CHANNELS := 4
  const BRIDGE_BUFFERS := 128
  const BRIDGE_STRIDE := 16 * 1024
  const INT_LIMIT := 0x8000_0000

  datatype Address = Address(channel: nat, chip: nat, block: nat, page: nat)

  predicate InRange(a: Address) {
    a.channel < CHANNELS && a.chip < 2 && a.block < 256 && a.page < 256
  }

  function PageOffset(a: Address): nat {
    a.page + a.block * 256 + a.chip * 65536
  }

  function ByteOffset(a: Address): nat {
    PageOffset(a) * PAGE_SIZE
  }

  /** Every address has a page of its own: whole, inside the channel's allocation and inside int. */
  lemma PagesApart(a: Address, b: Address)
    requires InRange(a) && InRange(b)
    ensures ByteOffset(a) + PAGE_SIZE <= BUS_EMUL_SIZE < INT_LIMIT
    ensures a == b || a.channel != b.channel
         || ByteOffset(a) + PAGE_SIZE <= ByteOffset(b) || ByteOffset(b) + PAGE_SIZE <= ByteOffset(a)
  {
    var p, q := PageOffset(a), PageOffset(b);
    assert p == q && a.channel == b.channel ==> a == b;
    if p < q {
      assert ByteOffset(a) + PAGE_SIZE <= ByteOffset(b);
    } else if q < p {
      assert ByteOffset(b) + PAGE_SIZE <= ByteOffset(a);
    }
  }

  /** No byte of an allocation is outside every page. */
  lemma PagesFill(channel: nat, at: nat)
    requires channel < CHANNELS && at < BUS_EMUL_SIZE
    ensures exists a :: InRange(a) && a.channel == channel && ByteOffset(a) <= at < ByteOffset(a) + PAGE_SIZE
  {
    var p := at / PAGE_SIZE;
    var a := Address(channel, p / 65536, p / 256 % 256, p % 256);
    assert PageOffset(a) == p;
  }

  /** The pages of a channel are in the order of their chips, then blocks, then pages. */
  lemma PagesInOrder(a: Address, b: Address)
    requires InRange(a) && InRange(b)
    ensures ByteOffset(a) < ByteOffset(b) <==>
            || a.chip < b.chip
            || (a.chip == b.chip && (a.block < b.block || (a.block == b.block && a.page < b.page)))
  {
    assert PageOffset(a) < PageOffset(b) <==> ByteOffset(a) < ByteOffset(b);
  }

  datatype Write = Write(to: Address, page: seq<bv8>)

  /** What the last write to `a` left there, `initial` if there was none. */
  function LastWritten(history: seq<Write>, a: Address, initial: seq<bv8>): seq<bv8> {
    if history == [] then initial
    else if history[|history| - 1].to == a then history[|history| - 1].page
    else LastWritten(history[..|history| - 1], a, initial)
  }

  lemma AfterWrite(history: seq<Write>, w: Write, a: Address, initial: seq<bv8>)
    ensures LastWritten(history + [w], a, initial) ==
            if w.to == a then w.page else LastWritten(history, a, initial)
  {
    assert (history + [w])[..|history|] == history;
  }

  /** The bridge buffers are one allocation; buffer `i` starts at `i * BRIDGE_STRIDE`.  `initial` is what
      the emulated flash came up with, `history` the writes served since. */
  class Bridge {
    const emulBuffers: seq<array<bv8>>
    const bridgeBuffers: array<bv8>
    ghost const initial: Address -> seq<bv8>
    ghost var history: seq<Write>

    ghost predicate Allocated() {
      && |emulBuffers| == CHANNELS
      && bridgeBuffers.Length == BRIDGE_BUFFERS * BRIDGE_STRIDE
      && (forall c :: 0 <= c < CHANNELS ==> emulBuffers[c].Length == BUS_EMUL_SIZE && emulBuffers[c] != bridgeBuffers)
      && (forall c, d :: 0 <= c < d < CHANNELS ==> emulBuffers[c] != emulBuffers[d])
    }

    /** The allocations of storagebridge_init and storagebridge_alloc, which may hold anything. */
    constructor (emul: seq<array<bv8>>, bridge: array<bv8>)
      requires |emul| == CHANNELS && bridge.Length == BRIDGE_BUFFERS * BRIDGE_STRIDE
      requires forall c :: 0 <= c < CHANNELS ==> emul[c].Length == BUS_EMUL_SIZE && emul[c] != bridge
      requires forall c, d :: 0 <= c < d < CHANNELS ==> emul[c] != emul[d]
      ensures Valid() && history == [] && emulBuffers == emul && bridgeBuffers == bridge
    {
      emulBuffers, bridgeBuffers, history := emul, bridge, [];
      ghost var contents := [emul[0][..], emul[1][..], emul[2][..], emul[3][..]];
      initial := a => if InRange(a) && ByteOffset(a) + PAGE_SIZE <= BUS_EMUL_SIZE
                      then contents[a.channel][ByteOffset(a)..ByteOffset(a) + PAGE_SIZE] else [];
      new;
      forall a | InRange(a) ensures Page(a) == initial(a) {
        PagesApart(a, a);
        assert contents[a.channel] == emulBuffers[a.channel][..];
      }
    }

    ghost function Page(a: Address): seq<bv8>
      requires Allocated() && InRange(a)
      reads emulBuffers
    {
      PagesApart(a, a);
      emulBuffers[a.channel][ByteOffset(a)..ByteOffset(a) + PAGE_SIZE]
    }

    function Buffer(bufidx: nat): seq<bv8>
      requires bridgeBuffers.Length == BRIDGE_BUFFERS * BRIDGE_STRIDE && bufidx < BRIDGE_BUFFERS
      reads bridgeBuffers
    {
      bridgeBuffers[bufidx * BRIDGE_STRIDE..bufidx * BRIDGE_STRIDE + PAGE_SIZE]
    }

    /** The flash holds at every address what was last written there. */
    ghost predicate Valid()
      reads this, emulBuffers
    {
      Allocated() && forall a :: InRange(a) ==> Page(a) == LastWritten(history, a, initial(a))
    }

    /** memcpy of one page. */
    method CopyPage(target: array<bv8>, at: nat, source: array<bv8>, from: nat)
      requires target != source && at + PAGE_SIZE <= target.Length && from + PAGE_SIZE <= source.Length
      modifies target
      ensures target[at..at + PAGE_SIZE] == source[from..from + PAGE_SIZE]
      ensures forall j :: 0 <= j < target.Length && !(at <= j < at + PAGE_SIZE) ==> target[j] == old(target[j])
    {
      for k := 0 to PAGE_SIZE
        invariant forall j :: at <= j < at + k ==> target[j] == source[j - at + from]
        invariant forall j :: 0 <= j < target.Length && !(at <= j < at + k) ==> target[j] == old(target[j])
      {
        target[at + k] := source[from + k];
      }
    }

    method WritePage(a: Address, bufidx: nat)
      requires Valid() && InRange(a) && bufidx < BRIDGE_BUFFERS
      modifies this`history, emulBuffers[a.channel]
      ensures Valid() && history == old(history) + [Write(a, Buffer(bufidx))]
      ensures forall b :: InRange(b) ==> Page(b) == if b == a then Buffer(bufidx) else old(Page(b))
    {
      PagesApart(a, a);
      CopyPage(emulBuffers[a.channel], ByteOffset(a), bridgeBuffers, bufidx * BRIDGE_STRIDE);
      history := history + [Write(a, Buffer(bufidx))];
      forall b | InRange(b) ensures Page(b) == if b == a then Buffer(bufidx) else old(Page(b)) {
        PagesApart(a, b);
      }
      forall b | InRange(b) ensures Page(b) == LastWritten(history, b, initial(b)) {
        AfterWrite(old(history), Write(a, Buffer(bufidx)), b, initial(b));
      }
    }

    method ReadPage(a: Address, bufidx: nat)
      requires Valid() && InRange(a) && bufidx < BRIDGE_BUFFERS
      modifies bridgeBuffers
      ensures Valid()
      ensures Buffer(bufidx) == LastWritten(history, a, initial(a))
      ensures forall i :: 0 <= i < BRIDGE_BUFFERS && i != bufidx ==> Buffer(i) == old(Buffer(i))
    {
      PagesApart(a, a);
      CopyPage(bridgeBuffers, bufidx * BRIDGE_STRIDE, emulBuffers[a.channel], ByteOffset(a));
      assert Buffer(bufidx) == Page(a);
      forall b | InRange(b) ensures Page(b) == old(Page(b)) {
        PagesApart(b, b);
      }
      forall i | 0 <= i < BRIDGE_BUFFERS && i != bufidx ensures Buffer(i) == old(Buffer(i)) {
        assert i * BRIDGE_STRIDE + PAGE_SIZE <= bufidx * BRIDGE_STRIDE
            || bufidx * BRIDGE_STRIDE + PAGE_SIZE <= i * BRIDGE_STRIDE;
      }
    }
  }
}
