/**
 What a test of projects/flash_multinode/main.cpp asks of the flash, in order,
 and that a host running it asks exactly that, however its requests are answered.
 */
module FlashScripts {
  import opened FlashHost
  import opened FlashCluster
  import opened FlashVerdict
  import opened FlashRuns
  import opened FlashPlans
  import opened FlashChecks
  import opened FlashTestsAreClients

  datatype Order = Order(kind: Kind, addr: Addr)

  function All(k: Kind, blocks: seq<Addr>): (s: seq<Order>)
    ensures |s| == |blocks| && forall i :: 0 <= i < |s| ==> s[i] == Order(k, blocks[i])
  {
    seq(|blocks|, i requires 0 <= i < |blocks| => Order(k, blocks[i]))
  }

  function Times(s: seq<Order>, n: nat): seq<Order> {
    if n == 0 then [] else Times(s, n - 1) + s
  }

  /** One round of a test: erase all, read all, write all, and read all over and over. */
  function Round(blocks: seq<Addr>, readRepeat: nat): seq<Order> {
    All(Erase, blocks) + All(Read, blocks) + All(Write, blocks) + Times(All(Read, blocks), readRepeat)
  }

  function Script(p: Plan): seq<Order> {
    Times(Round(p.blocks, p.readRepeat), p.testRepeat)
  }

  // ----- the loops of the tests -----

  /** many_to_many_test, as far as what it asks for: refused above ten repeats, and only complained about
      below one. */
  method ManyToManyOrders(myid: nat, check: bool, testRepeat: int, readRepeat: int) returns (orders: seq<Order>)
    ensures orders == Script(ManyToMany(myid, check, testRepeat, readRepeat))
    ensures orders == if testRepeat > 10 || testRepeat < 0 then []
                      else Times(Round(Stride(myid, 4), if readRepeat < 0 then 0 else readRepeat), testRepeat)
  {
    orders := [];
    if testRepeat > 10 {
      return;
    }
    ghost var round := Round(Stride(myid, NUM_NODES), if readRepeat < 0 then 0 else readRepeat);
    var ti := 0;
    while ti < testRepeat
      invariant 0 <= ti && (ti <= testRepeat || testRepeat < 0 == ti) && orders == Times(round, ti)
    {
      var blocks := IssueOrder(myid, NUM_NODES);
      var asked := RoundOrders(blocks, readRepeat);
      orders := orders + asked;
      ti := ti + 1;
    }
  }

  /** local_test and one_to_many_test: one round over their blocks. */
  method RoundOrders(blocks: seq<Addr>, readRepeat: int) returns (orders: seq<Order>)
    ensures orders == Round(blocks, if readRepeat < 0 then 0 else readRepeat)
  {
    orders := All(Erase, blocks) + All(Read, blocks) + All(Write, blocks);
    ghost var before := orders;
    var rep := 0;
    while rep < readRepeat
      invariant 0 <= rep && (rep <= readRepeat || readRepeat < 0 == rep)
      invariant orders == before + Times(All(Read, blocks), rep)
    {
      orders := orders + All(Read, blocks);
      rep := rep + 1;
    }
  }

  // ----- repetition -----

  lemma {:induction false} TimesLength(s: seq<Order>, n: nat)
    ensures |Times(s, n)| == |s| * n
  {
    if n > 0 {
      TimesLength(s, n - 1);
      assert |s| * n == |s| * (n - 1) + |s|;
    }
  }

  lemma {:induction false} TimesAt(s: seq<Order>, n: nat, i: nat)
    requires i < |s| * n
    ensures |s| > 0 && |Times(s, n)| == |s| * n && Times(s, n)[i] == s[i % |s|]
  {
    TimesLength(s, n);
    TimesLength(s, n - 1);
    assert |s| * n == |s| * (n - 1) + |s|;
    if i < |s| * (n - 1) {
      TimesAt(s, n - 1, i);
    } else {
      Within(i, |s|, n - 1);
    }
  }

  lemma Within(i: nat, m: nat, n: nat)
    requires m * n <= i < m * n + m
    ensures i % m == i - m * n
  {
    var q := i / m;
    assert m * q <= i < m * q + m && m * (q + 1) == m * q + m && m * (n + 1) == m * n + m;
    if q < n {
      Scales(m, q + 1, n);
    } else if n < q {
      Scales(m, n + 1, q);
    }
  }

  lemma {:induction false} TimesPrefix(s: seq<Order>, m: nat, n: nat)
    requires m <= n
    ensures Times(s, m) <= Times(s, n)
  {
    if m < n {
      TimesPrefix(s, m, n - 1);
    }
  }

  // ----- the host -----

  /** What the phase a host is in asks for. */
  function PhaseOrders(p: Plan, phase: nat): seq<Order> {
    if phase == 0 then All(Erase, p.blocks)
    else if phase == 1 then All(Read, p.blocks)
    else if phase == 2 then All(Write, p.blocks)
    else Times(All(Read, p.blocks), p.readRepeat)
  }

  function PhasesBefore(p: Plan, phase: nat): seq<Order> {
    if phase == 0 then []
    else if phase == 1 then All(Erase, p.blocks)
    else if phase == 2 then All(Erase, p.blocks) + All(Read, p.blocks)
    else All(Erase, p.blocks) + All(Read, p.blocks) + All(Write, p.blocks)
  }

  lemma PhaseOrderAt(p: Plan, phase: nat, op: nat)
    requires |p.blocks| > 0 && phase < 4 && op < Ops(p, phase)
    ensures |PhaseOrders(p, phase)| == Ops(p, phase)
    ensures PhaseOrders(p, phase)[op] == Order(KindOf(phase), Target(p, op))
  {
    if phase == 3 {
      TimesAt(All(Read, p.blocks), p.readRepeat, op);
    } else {
      RemainderOfSmall(op, |p.blocks|);
    }
  }

  lemma PhaseOrdersLength(p: Plan, phase: nat)
    ensures |PhaseOrders(p, phase)| == if phase < 3 then |p.blocks| else |p.blocks| * p.readRepeat
  {
    TimesLength(All(Read, p.blocks), p.readRepeat);
  }

  /** How many operations of its phase a host has issued. */
  function Begun(n: Node): nat {
    n.op + if n.pc.Locked? then 1 else 0
  }

  /** What a host has asked for so far. */
  ghost function Progress(p: Plan, n: Node): seq<Order>
    requires Booked(p, n)
  {
    ProgressFits(p, n);
    Times(Round(p.blocks, p.readRepeat), n.rep) + (PhasesBefore(p, n.phase) + PhaseOrders(p, n.phase)[..Begun(n)])
  }

  lemma ProgressFits(p: Plan, n: Node)
    requires Booked(p, n)
    ensures n.phase < 4 && Begun(n) <= |PhaseOrders(p, n.phase)| == Ops(p, n.phase)
  {
    PhaseOrdersLength(p, n.phase);
  }

  /** The request a step of the host issues, if any. */
  function AskedBy(p: Plan, n: Node, e: Event): seq<Order>
    requires |p.blocks| > 0 && (!e.Main? ==> e.tag in n.flights)
  {
    var d := Does(p, n, e);
    if d != [] && d[0].IssueRequest? then [Order(d[0].kind, d[0].addr)] else []
  }

  lemma LockAsks(p: Plan, n: Node)
    requires Booked(p, n) && n.op < Ops(p, n.phase) && n.pc.Filled? && Booked(p, Advance(p, n))
    ensures Progress(p, Advance(p, n)) == Progress(p, n) + [Order(KindOf(n.phase), Target(p, n.op))]
  {
    var r, o := Advance(p, n), Order(KindOf(n.phase), Target(p, n.op));
    ProgressFits(p, n);
    ProgressFits(p, r);
    PhaseOrderAt(p, n.phase, n.op);
    var orders := PhaseOrders(p, n.phase);
    assert orders[..n.op + 1] == orders[..n.op] + [o];
    var rounds, before := Times(Round(p.blocks, p.readRepeat), n.rep), PhasesBefore(p, n.phase);
    assert rounds + (before + (orders[..n.op] + [o])) == rounds + (before + orders[..n.op]) + [o];
  }

  lemma BarrierAsks(p: Plan, n: Node)
    requires Booked(p, n) && Running(p, n) && n.op == Ops(p, n.phase) && Booked(p, Advance(p, n))
    ensures Progress(p, Advance(p, n)) == Progress(p, n)
  {
    var r := Advance(p, n);
    ProgressFits(p, n);
    ProgressFits(p, r);
    if LaneOf(n.host, KindOf(n.phase)).inFlight == 0 {
      BarrierHolds(p, n);
      var orders := PhaseOrders(p, n.phase);
      assert orders[..n.op] == orders && PhaseOrders(p, r.phase)[..0] == [];
    }
  }

  lemma AdvanceAsks(p: Plan, n: Node, e: Event)
    requires Booked(p, n) && Running(p, n) && Booked(p, Advance(p, n)) && e.Main?
    ensures Progress(p, Advance(p, n)) == Progress(p, n) + AskedBy(p, n, e)
  {
    ProgressFits(p, n);
    ProgressFits(p, Advance(p, n));
    if n.op == Ops(p, n.phase) {
      BarrierAsks(p, n);
    } else if n.pc.Filled? {
      LockAsks(p, n);
    }
  }

  lemma StepAsks(p: Plan, n: Node, e: Event)
    requires Booked(p, n) && May(p, n, e)
    ensures Booked(p, NodeStep(p, n, e))
    ensures Progress(p, NodeStep(p, n, e)) == Progress(p, n) + AskedBy(p, n, e)
    ensures n.rep <= p.testRepeat ==> NodeStep(p, n, e).rep <= p.testRepeat
  {
    NodeStepBooked(p, n, e);
    ProgressFits(p, n);
    ProgressFits(p, NodeStep(p, n, e));
    if e.Main? {
      AdvanceAsks(p, n, e);
    }
  }

  // ----- every run -----

  /** The requests host `i` issues in a run, in order. */
  ghost function Asked(plans: seq<Plan>, c: Cluster, es: seq<Event>, i: nat): seq<Order>
    requires AllBooked(plans, c) && i < |plans|
    decreases |es|
  {
    if es == [] then [] else
    StepBooked(plans, c, es[0]);
    (if es[0].n == i && Possible(plans, c, es[0]) then AskedBy(plans[i], c.nodes[i], es[0]) else [])
    + Asked(plans, Step(plans, c, es[0]), es[1..], i)
  }

  lemma ThenMore(a: seq<Order>, b: seq<Order>, c: seq<Order>)
    ensures (a + b) + c == a + (b + c)
  {
  }

  lemma StepAsksHost(plans: seq<Plan>, c: Cluster, e: Event, i: nat)
    requires AllBooked(plans, c) && i < |plans| && AllBooked(plans, Step(plans, c, e))
    requires c.nodes[i].rep <= plans[i].testRepeat
    ensures Step(plans, c, e).nodes[i].rep <= plans[i].testRepeat
    ensures Progress(plans[i], Step(plans, c, e).nodes[i]) ==
            Progress(plans[i], c.nodes[i])
            + if e.n == i && Possible(plans, c, e) then AskedBy(plans[i], c.nodes[i], e) else []
  {
    if e.n == i && Possible(plans, c, e) {
      StepAsks(plans[i], c.nodes[i], e);
    }
  }

  lemma {:induction false} RunAsks(plans: seq<Plan>, c: Cluster, es: seq<Event>, i: nat)
    requires AllBooked(plans, c) && i < |plans| && c.nodes[i].rep <= plans[i].testRepeat
    ensures AllBooked(plans, Run(plans, c, es)) && Run(plans, c, es).nodes[i].rep <= plans[i].testRepeat
    ensures Progress(plans[i], Run(plans, c, es).nodes[i]) ==
            Progress(plans[i], c.nodes[i]) + Asked(plans, c, es, i)
    decreases |es|
  {
    if es != [] {
      var e, c' := es[0], Step(plans, c, es[0]);
      StepBooked(plans, c, e);
      StepAsksHost(plans, c, e, i);
      RunAsks(plans, c', es[1..], i);
      ThenMore(Progress(plans[i], c.nodes[i]),
               if e.n == i && Possible(plans, c, e) then AskedBy(plans[i], c.nodes[i], e) else [],
               Asked(plans, c', es[1..], i));
    }
  }

  /** A host asks for what its test's loops say, in that order, on any fabric and in any company: in every run
      it has issued a beginning of the script, and all of it if it has finished. */
  lemma FollowsScript(plans: seq<Plan>, c: Cluster, es: seq<Event>, i: nat)
    requires AllStarting(plans, c) && i < |plans|
    ensures AllBooked(plans, c)
    ensures Asked(plans, c, es, i) <= Script(plans[i])
    ensures !Running(plans[i], Run(plans, c, es).nodes[i]) ==> Asked(plans, c, es, i) == Script(plans[i])
  {
    AllStartingBooked(plans, c);
    RunAsks(plans, c, es, i);
    ProgressInScript(plans[i], Run(plans, c, es).nodes[i]);
  }

  lemma ProgressInScript(p: Plan, n: Node)
    requires Booked(p, n) && n.rep <= p.testRepeat
    ensures Progress(p, n) <= Script(p) && (!Running(p, n) ==> Progress(p, n) == Script(p))
  {
    ProgressFits(p, n);
    var round := Round(p.blocks, p.readRepeat);
    if Running(p, n) {
      TimesPrefix(round, n.rep + 1, p.testRepeat);
      assert PhasesBefore(p, n.phase) + PhaseOrders(p, n.phase)[..Begun(n)] <= round;
    }
  }
}
