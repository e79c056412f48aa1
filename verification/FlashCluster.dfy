/**
 Several hosts running the erase, read, write, read tests of
 projects/flash_multinode/main.cpp against one flash fabric.  The fabric
 answers each request once, in any order; every lock section, data check,
 device action and callback is one step, and all of them interleave freely.
 */
module FlashCluster {
  import opened FlashHost

  /** What a block of the fabric holds. */
  datatype Content = Unknown | Blank | Broken | Programmed(page: seq<nat>)

  /** A request on its way: for which operation of the phase, and how far it has got. */
  datatype Flight = Flight(op: nat, stage: Stage, bad: bool)

  /** Where the test thread is inside one operation: no tag yet, tag acquired, buffer filled,
      lock section done with the device call still to come. */
  datatype Pc = Ready | Acquired(tag: nat) | Filled(tag: nat) | Locked(tag: nat)

  /** The test a host runs: its blocks in order, and how often. */
  datatype Plan = Plan(blocks: seq<Addr>, check: bool, testRepeat: nat, readRepeat: nat)

  /** A host in round `rep`, phase `phase` of the round, at operation `op` of the phase. */
  datatype Node = Node(host: Host, flights: map<nat, Flight>, pc: Pc, rep: nat, phase: nat, op: nat)

  function KindOf(phase: nat): Kind {
    if phase == 0 then Erase else if phase == 2 then Write else Read
  }

  function Ops(p: Plan, phase: nat): nat {
    if phase == 3 then |p.blocks| * p.readRepeat else |p.blocks|
  }

  function Target(p: Plan, op: nat): Addr
    requires |p.blocks| > 0
  {
    p.blocks[op % |p.blocks|]
  }

  predicate Running(p: Plan, n: Node) {
    n.rep < p.testRepeat
  }

  function GoldenPage(a: Addr): seq<nat> {
    seq(PAGE_WORDS, w => if w >= 0 then Golden(a, w) else 0)
  }

  /** One step of the test thread. */
  function Advance(p: Plan, n: Node): Node
    requires Formed(n.host) && (n.pc.Ready? || n.pc.tag < NUM_TAGS) && |p.blocks| > 0
  {
    var k, h := KindOf(n.phase), n.host;
    if n.op < Ops(p, n.phase) then
      match n.pc
      case Ready =>
        var t := FirstIdle(LaneOf(h, k).tags, NUM_TAGS);
        if t == NUM_TAGS then n else n.(host := Acquire(h, k, t), pc := Acquired(t))
      case Acquired(t) =>
        if k == Write && p.check then
          n.(host := h.(writeBuffers := h.writeBuffers[t := GoldenPage(Target(p, n.op))]), pc := Filled(t))
        else n.(pc := Filled(t))
      case Filled(t) => n.(host := Issue(h, k, Target(p, n.op), t), pc := Locked(t))
      case Locked(t) =>
        n.(flights := n.flights[t := Flight(n.op, Requested, false)], pc := Ready, op := n.op + 1)
    else if LaneOf(h, k).inFlight != 0 then n
    else if n.phase < 3 then n.(phase := n.phase + 1, op := 0)
    else n.(rep := n.rep + 1, phase := 0, op := 0)
  }

  // ----- tags and counters: true whatever the fabric answers -----

  predicate PcHolds(n: Node, t: nat) {
    !n.pc.Ready? && n.pc.tag == t
  }

  /** The blocks are a non-empty list without repetition, on the boards. */
  predicate PlanOk(p: Plan) {
    && |p.blocks| > 0
    && (forall i :: 0 <= i < |p.blocks| ==> OnBoard(p.blocks[i]))
    && forall i, j :: 0 <= i < j < |p.blocks| ==> p.blocks[i] != p.blocks[j]
  }

  predicate Placed(p: Plan, n: Node) {
    && Formed(n.host)
    && n.phase < 4 && n.op <= Ops(p, n.phase)
    && (!n.pc.Ready? ==> n.pc.tag < NUM_TAGS && n.op < Ops(p, n.phase) && Running(p, n) && n.pc.tag !in n.flights)
    && (forall t <- n.flights :: t < NUM_TAGS && n.flights[t].op < n.op)
    && (!Running(p, n) ==> n.flights == map[] && n.phase == 0 && n.op == 0)
  }

  /** A tag is busy exactly when the test thread holds it or its request is in flight, never both. */
  ghost predicate BusyRight(n: Node, k: Kind, t: nat)
    requires Formed(n.host) && t < NUM_TAGS
  {
    LaneOf(n.host, k).tags[t].busy <==> k == KindOf(n.phase) && (t in n.flights || PcHolds(n, t))
  }

  /** A counter is the number of requests of its kind issued and not completed. */
  ghost predicate CountRight(n: Node, k: Kind) {
    LaneOf(n.host, k).inFlight ==
    if k == KindOf(n.phase) then |n.flights.Keys| + (if n.pc.Locked? then 1 else 0) else 0
  }

  /** The table entry of a request in flight is the address it was issued for. */
  ghost predicate EntryRight(p: Plan, n: Node, t: nat)
    requires Formed(n.host) && t < NUM_TAGS && |p.blocks| > 0
  {
    var l := LaneOf(n.host, KindOf(n.phase));
    && (t in n.flights && KindOf(n.phase) != Write ==> l.tags[t].addr == Target(p, n.flights[t].op))
    && (n.pc == Locked(t) && KindOf(n.phase) != Write ==> l.tags[t].addr == Target(p, n.op))
    && (t in n.flights && n.flights[t].stage == Checked ==> KindOf(n.phase) == Read)
    && (t in n.flights ==> forall u <- n.flights :: u != t ==> n.flights[u].op != n.flights[t].op)
  }

  ghost predicate BookedAt(p: Plan, n: Node, t: nat)
    requires Formed(n.host) && t < NUM_TAGS && |p.blocks| > 0
  {
    && (forall k :: BusyRight(n, k, t))
    && EntryRight(p, n, t)
  }

  ghost predicate Booked(p: Plan, n: Node) {
    && |p.blocks| > 0
    && Placed(p, n)
    && (forall k :: CountRight(n, k))
    && forall t {:trigger BookedAt(p, n, t)} :: 0 <= t < NUM_TAGS ==> BookedAt(p, n, t)
  }

  lemma AcquireBooked(p: Plan, n: Node)
    requires Booked(p, n) && Running(p, n) && n.op < Ops(p, n.phase) && n.pc.Ready?
    ensures Booked(p, Advance(p, n))
  {
    var r, k := Advance(p, n), KindOf(n.phase);
    var t0 := FirstIdle(LaneOf(n.host, k).tags, NUM_TAGS);
    assert t0 < NUM_TAGS ==> BookedAt(p, n, t0) && BusyRight(n, k, t0);
    forall t: nat | t < NUM_TAGS
      ensures BookedAt(p, r, t)
    {
      assert BookedAt(p, n, t);
      assert forall k :: BusyRight(n, k, t) ==> BusyRight(r, k, t);
    }
    assert forall k :: CountRight(n, k) ==> CountRight(r, k);
  }

  lemma FillAndLockBooked(p: Plan, n: Node)
    requires Booked(p, n) && Running(p, n) && n.op < Ops(p, n.phase) && (n.pc.Acquired? || n.pc.Filled?)
    ensures Booked(p, Advance(p, n))
  {
    var r := Advance(p, n);
    forall t: nat | t < NUM_TAGS
      ensures BookedAt(p, r, t)
    {
      assert BookedAt(p, n, t);
      assert forall k :: BusyRight(n, k, t) ==> BusyRight(r, k, t);
    }
    assert forall k :: CountRight(n, k) ==> CountRight(r, k);
  }

  lemma SendBooked(p: Plan, n: Node)
    requires Booked(p, n) && Running(p, n) && n.op < Ops(p, n.phase) && n.pc.Locked?
    ensures Booked(p, Advance(p, n))
  {
    var r := Advance(p, n);
    assert r.flights.Keys == n.flights.Keys + {n.pc.tag};
    forall t: nat | t < NUM_TAGS
      ensures BookedAt(p, r, t)
    {
      assert BookedAt(p, n, t);
      assert forall k :: BusyRight(n, k, t) ==> BusyRight(r, k, t);
    }
    assert forall k :: CountRight(n, k) ==> CountRight(r, k);
  }

  /** The busy-wait on a zero counter is a true phase barrier: nothing of the phase is left in flight. */
  lemma BarrierHolds(p: Plan, n: Node)
    requires Booked(p, n) && n.op == Ops(p, n.phase) && LaneOf(n.host, KindOf(n.phase)).inFlight == 0
    ensures n.pc.Ready? && n.flights == map[]
  {
    assert CountRight(n, KindOf(n.phase));
    assert |n.flights.Keys| == 0;
  }

  lemma BarrierBooked(p: Plan, n: Node)
    requires Booked(p, n) && Running(p, n) && n.op == Ops(p, n.phase)
    ensures Booked(p, Advance(p, n))
  {
    var r := Advance(p, n);
    if LaneOf(n.host, KindOf(n.phase)).inFlight == 0 {
      BarrierHolds(p, n);
      forall t: nat | t < NUM_TAGS
        ensures BookedAt(p, r, t)
      {
        assert BookedAt(p, n, t);
        assert forall k :: BusyRight(n, k, t) ==> BusyRight(r, k, t);
      }
      assert forall k :: CountRight(n, k) ==> CountRight(r, k);
    }
  }

  lemma AdvanceBooked(p: Plan, n: Node)
    requires Booked(p, n) && Running(p, n)
    ensures Booked(p, Advance(p, n))
  {
    if n.op == Ops(p, n.phase) {
      BarrierBooked(p, n);
    } else if n.pc.Ready? {
      AcquireBooked(p, n);
    } else if n.pc.Locked? {
      SendBooked(p, n);
    } else {
      FillAndLockBooked(p, n);
    }
  }

  // ----- the fabric and the callbacks -----

  /** The fabric acts on the request of tag `t`: a read lands `page` in the tag's buffer, an erase
      turns out good or bad. */
  function Touch(n: Node, t: nat, page: seq<nat>, bad: bool): Node
    requires Formed(n.host) && t < NUM_TAGS && t in n.flights
  {
    var n' := n.(flights := n.flights[t := Flight(n.flights[t].op, Performed, bad)]);
    if KindOf(n.phase) != Read then n'
    else n'.(host := n.host.(readBuffers := n.host.readBuffers[t := page]))
  }

  /** The callback thread's data check of a read. */
  ghost function Check(p: Plan, n: Node, t: nat): Node
    requires Formed(n.host) && t < NUM_TAGS && t in n.flights
  {
    n.(host := CheckRead(n.host, p.check, t),
       flights := n.flights[t := Flight(n.flights[t].op, Checked, n.flights[t].bad)])
  }

  /** The lock section of a completion callback. */
  function Finish(n: Node, t: nat): Node
    requires Formed(n.host) && t < NUM_TAGS && t in n.flights
  {
    n.(host := Complete(n.host, KindOf(n.phase), t, n.flights[t].bad), flights := n.flights - {t})
  }

  /** The callbacks come after the fabric has acted, a read's lock section after its check. */
  predicate MayFinish(n: Node, t: nat)
    requires t in n.flights
  {
    n.flights[t].stage == if KindOf(n.phase) == Read then Checked else Performed
  }

  lemma TouchBooked(p: Plan, n: Node, t0: nat, page: seq<nat>, bad: bool)
    requires Booked(p, n) && t0 in n.flights && |page| == PAGE_WORDS
    ensures Booked(p, Touch(n, t0, page, bad))
  {
    var r := Touch(n, t0, page, bad);
    assert r.flights.Keys == n.flights.Keys;
    forall t: nat | t < NUM_TAGS
      ensures BookedAt(p, r, t)
    {
      assert BookedAt(p, n, t);
      assert forall k :: BusyRight(n, k, t) ==> BusyRight(r, k, t);
    }
    assert forall k :: CountRight(n, k) ==> CountRight(r, k);
  }

  lemma CheckBooked(p: Plan, n: Node, t0: nat)
    requires Booked(p, n) && t0 in n.flights && KindOf(n.phase) == Read
    ensures Booked(p, Check(p, n, t0))
  {
    var r := Check(p, n, t0);
    assert r.flights.Keys == n.flights.Keys;
    forall t: nat | t < NUM_TAGS
      ensures BookedAt(p, r, t)
    {
      assert BookedAt(p, n, t);
      assert forall k :: BusyRight(n, k, t) ==> BusyRight(r, k, t);
    }
    assert forall k :: CountRight(n, k) ==> CountRight(r, k);
  }

  /** A completion finds its counter positive and its tag busy, so no error branch is taken. */
  lemma FinishBooked(p: Plan, n: Node, t0: nat)
    requires Booked(p, n) && t0 in n.flights
    ensures Booked(p, Finish(n, t0))
    ensures Finish(n, t0).host.errors == n.host.errors && Finish(n, t0).host.testPass == n.host.testPass
  {
    var r, k0 := Finish(n, t0), KindOf(n.phase);
    assert r.flights.Keys == n.flights.Keys - {t0};
    assert |n.flights.Keys| > 0;
    assert BookedAt(p, n, t0) && BusyRight(n, k0, t0) && CountRight(n, k0);
    forall t: nat | t < NUM_TAGS
      ensures BookedAt(p, r, t)
    {
      assert BookedAt(p, n, t);
      assert forall k :: BusyRight(n, k, t) ==> BusyRight(r, k, t);
    }
    assert forall k :: CountRight(n, k) ==> CountRight(r, k);
  }
}
