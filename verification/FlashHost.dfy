/**
 One host of projects/flash_multinode: its tag tables, in-flight counters and
 block status table, with the lock sections and callbacks of flash.cpp as
 functions on them.
 */
module FlashHost {

  const NUM_TAGS := 128
  const NUM_NODES := 4
  const NUM_BUSES := 8
  const CHIPS_PER_BUS := 8
  const BLOCKS_PER_CHIP := 1024
  const PAGE_WORDS := 4096
  const VALID_WORDS := 2056
  const ALL_ONES := 0xFFFF_FFFF

  datatype Addr = Addr(node: nat, bus: nat, chip: nat, block: nat)

  predicate OnBoard(a: Addr) {
    a.node < NUM_NODES && a.bus < NUM_BUSES && a.chip < CHIPS_PER_BUS && a.block < BLOCKS_PER_CHIP
  }

  datatype Status = UNINIT | ERASED | WRITTEN | BAD
  datatype Kind = Erase | Write | Read

  /** How far a request on its way has got; only reads are checked before they complete. */
  datatype Stage = Requested | Performed | Checked

  datatype Entry = Entry(busy: bool, addr: Addr)

  /** One tag table and its in-flight counter. */
  datatype Lane = Lane(tags: seq<Entry>, inFlight: int)

  /** The globals of one host; `errors` counts the error branches taken by the callbacks. */
  datatype Host = Host(
    erase: Lane, write: Lane, read: Lane, status: map<Addr, Status>,
    readBuffers: seq<seq<nat>>, writeBuffers: seq<seq<nat>>, testPass: bool, errors: nat)

  predicate Formed(h: Host) {
    && |h.erase.tags| == |h.write.tags| == |h.read.tags| == NUM_TAGS
    && |h.readBuffers| == |h.writeBuffers| == NUM_TAGS
    && forall t :: 0 <= t < NUM_TAGS ==> |h.readBuffers[t]| == |h.writeBuffers[t]| == PAGE_WORDS
  }

  function LaneOf(h: Host, k: Kind): Lane {
    match k
    case Erase => h.erase
    case Write => h.write
    case Read => h.read
  }

  function WithLane(h: Host, k: Kind, l: Lane): Host {
    match k
    case Erase => h.(erase := l)
    case Write => h.(write := l)
    case Read => h.(read := l)
  }

  /** The status table starts zeroed, which is UNINIT. */
  function StatusOf(h: Host, a: Addr): Status {
    if a in h.status then h.status[a] else UNINIT
  }

  /** hashAddrToData */
  function Golden(a: Addr, word: nat): nat {
    a.node * 0x800_0000 + a.bus * 0x100_0000 + a.chip * 0x10_0000 + a.block * 0x1_0000 + word
  }

  /** For every address on the boards the sum stays inside a 32-bit int, so the shifts lose nothing
      and the comparison with an unsigned word is a comparison of the numbers. */
  lemma GoldenFits(a: Addr, word: nat)
    requires OnBoard(a) && word < PAGE_WORDS
    ensures Golden(a, word) < 0x8000_0000
  {
  }

  ghost predicate HoldsGolden(a: Addr, page: seq<nat>, n: nat) {
    n <= |page| && forall w :: 0 <= w < n ==> page[w] == Golden(a, w)
  }

  /** What checkReadData decides, by the recorded status of the block the tag was read from. */
  ghost predicate DataAcceptable(status: Status, a: Addr, page: seq<nat>)
    requires |page| == PAGE_WORDS
  {
    match status
    case WRITTEN => HoldsGolden(a, page, VALID_WORDS)
    case ERASED => page[0] == ALL_ONES || page[0] == 0
    case BAD => true
    case UNINIT => false
  }

  /** The scan of the waitIdle functions: the first idle tag below `n`, or `n`. */
  function FirstIdle(tags: seq<Entry>, n: nat): (t: nat)
    requires n <= |tags|
    ensures t <= n && (t < n ==> !tags[t].busy) && forall u :: 0 <= u < t ==> tags[u].busy
  {
    if n == 0 then 0
    else
      var t := FirstIdle(tags, n - 1);
      if t < n - 1 || !tags[n - 1].busy then t else n
  }

  function SetBusy(l: Lane, t: nat, busy: bool): Lane
    requires t < |l.tags|
  {
    l.(tags := l.tags[t := l.tags[t].(busy := busy)])
  }

  function Acquire(h: Host, k: Kind, t: nat): Host
    requires Formed(h) && t < NUM_TAGS
  {
    WithLane(h, k, SetBusy(LaneOf(h, k), t, true))
  }

  /** The lock sections of eraseBlock, writePage and readPage; the write table records no address. */
  function Issue(h: Host, k: Kind, a: Addr, t: nat): Host
    requires Formed(h) && t < NUM_TAGS
  {
    var l := LaneOf(h, k);
    var l' := l.(inFlight := l.inFlight + 1);
    match k
    case Erase => h.(erase := Record(l', a, t), status := h.status[a := ERASED])
    case Write => h.(write := l', status := if StatusOf(h, a) == BAD then h.status else h.status[a := WRITTEN])
    case Read => h.(read := Record(l', a, t))
  }

  function Record(l: Lane, a: Addr, t: nat): Lane
    requires t < |l.tags|
  {
    l.(tags := l.tags[t := l.tags[t].(addr := a)])
  }

  /** The unlocked first half of readDone. */
  ghost function CheckRead(h: Host, checkData: bool, t: nat): Host
    requires Formed(h) && t < NUM_TAGS
  {
    var a := h.read.tags[t].addr;
    if checkData then h.(testPass := h.testPass && DataAcceptable(StatusOf(h, a), a, h.readBuffers[t]))
    else h
  }

  /** The lock sections of the completion callbacks.  A negative counter fails the test for erases only. */
  function Complete(h: Host, k: Kind, t: nat, bad: bool): Host
    requires Formed(h) && t < NUM_TAGS
  {
    var l := LaneOf(h, k);
    var negative := l.inFlight - 1 < 0;
    var unused := !l.tags[t].busy;
    var l' := SetBusy(l.(inFlight := if negative then 0 else l.inFlight - 1), t, false);
    var h' := WithLane(h, k, l');
    h'.(status := if k == Erase && bad then h.status[l.tags[t].addr := BAD] else h.status,
        testPass := h.testPass && !unused && !(k == Erase && negative),
        errors := h.errors + (if negative then 1 else 0) + (if unused then 1 else 0))
  }
}
