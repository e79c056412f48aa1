/**
 Runs of the whole cluster of projects/flash_multinode: any number of hosts on
 one fabric, each with its own tests and its own blocks.
 */
module FlashRuns {
  import opened FlashHost
  import opened FlashCluster
  import opened FlashVerdict

  datatype Cluster = Cluster(nodes: seq<Node>, flash: map<Addr, Content>)

  /** A step of the test thread of a host, of the fabric on one of its requests, of its callback
      thread checking a page read, and of the callback's lock section. */
  datatype Event =
    | Main(n: nat)
    | Fabric(n: nat, tag: nat, page: seq<nat>, bad: bool)
    | DataCheck(n: nat, tag: nat)
    | Callback(n: nat, tag: nat)

  predicate Possible(plans: seq<Plan>, c: Cluster, e: Event)
    requires |plans| == |c.nodes|
  {
    && e.n < |plans|
    && match e
       case Main(n) => Running(plans[n], c.nodes[n])
       case Fabric(n, t, page, _) => MayTouch(c.nodes[n], t) && |page| == PAGE_WORDS
       case DataCheck(n, t) => MayCheck(c.nodes[n], t)
       case Callback(n, t) => t in c.nodes[n].flights && MayFinish(c.nodes[n], t)
  }

  /** The fabric answers as a flash board should. */
  ghost predicate WellBehaved(plans: seq<Plan>, c: Cluster, e: Event) {
    AllBooked(plans, c) && Possible(plans, c, e) && e.Fabric? ==>
      FabricObeys(plans[e.n], c.nodes[e.n], c.flash, e.tag, e.page)
  }

  ghost predicate AllBooked(plans: seq<Plan>, c: Cluster) {
    |plans| == |c.nodes| && forall i :: 0 <= i < |plans| ==> Booked(plans[i], c.nodes[i])
  }

  /** One step of the host concerned. */
  ghost function NodeStep(p: Plan, n: Node, e: Event): Node
    requires Booked(p, n) && (!e.Main? ==> e.tag in n.flights)
  {
    match e
    case Main(_) => Advance(p, n)
    case Fabric(_, t, page, bad) => Touch(n, t, page, bad)
    case DataCheck(_, t) => Check(p, n, t)
    case Callback(_, t) => Finish(n, t)
  }

  /** States whose books are wrong do not occur, and go nowhere. */
  ghost function Step(plans: seq<Plan>, c: Cluster, e: Event): (r: Cluster)
    ensures |r.nodes| == |c.nodes|
  {
    if !AllBooked(plans, c) || !Possible(plans, c, e) then c else
    var n := c.nodes[e.n];
    Cluster(c.nodes[e.n := NodeStep(plans[e.n], n, e)],
            if e.Fabric? then Touched(plans[e.n], n, c.flash, e.tag, e.bad) else c.flash)
  }

  lemma NodeStepBooked(p: Plan, n: Node, e: Event)
    requires Booked(p, n)
    requires match e
             case Main(_) => Running(p, n)
             case Fabric(_, t, page, _) => MayTouch(n, t) && |page| == PAGE_WORDS
             case DataCheck(_, t) => MayCheck(n, t)
             case Callback(_, t) => t in n.flights && MayFinish(n, t)
    ensures var r := NodeStep(p, n, e);
            && Booked(p, r) && r.host.errors == n.host.errors && (r.host.testPass ==> n.host.testPass)
  {
    match e
    case Main(_) => AdvanceBooked(p, n); AdvanceKeepsVerdict(p, n);
    case Fabric(_, t, page, bad) => TouchBooked(p, n, t, page, bad);
    case DataCheck(_, t) => CheckBooked(p, n, t);
    case Callback(_, t) => FinishBooked(p, n, t);
  }

  /** Whatever the fabric answers, every step keeps tags and counters booked and takes no error branch. */
  lemma StepBooked(plans: seq<Plan>, c: Cluster, e: Event)
    requires AllBooked(plans, c)
    ensures AllBooked(plans, Step(plans, c, e))
    ensures forall i :: 0 <= i < |plans| ==>
              && Step(plans, c, e).nodes[i].host.errors == c.nodes[i].host.errors
              && (Step(plans, c, e).nodes[i].host.testPass ==> c.nodes[i].host.testPass)
  {
    if Possible(plans, c, e) {
      NodeStepBooked(plans[e.n], c.nodes[e.n], e);
    }
  }

  lemma AdvanceKeepsVerdict(p: Plan, n: Node)
    requires Booked(p, n)
    ensures Advance(p, n).host.errors == n.host.errors && Advance(p, n).host.testPass == n.host.testPass
  {
  }

  /** Every list of events is a run. */
  ghost function Run(plans: seq<Plan>, c: Cluster, es: seq<Event>): (r: Cluster)
    ensures |r.nodes| == |c.nodes|
    decreases |es|
  {
    if es == [] then c else Run(plans, Step(plans, c, es[0]), es[1..])
  }

  ghost predicate WellBehavedRun(plans: seq<Plan>, c: Cluster, es: seq<Event>)
    decreases |es|
  {
    es == [] || (WellBehaved(plans, c, es[0]) && WellBehavedRun(plans, Step(plans, c, es[0]), es[1..]))
  }

  /** A host about to start its test: tags idle and nothing in flight; its status table and the boards
      may be in any state. */
  ghost predicate Starting(n: Node) {
    && FlashHost.Formed(n.host)
    && (forall k :: LaneOf(n.host, k).inFlight == 0)
    && (forall k, t :: 0 <= t < NUM_TAGS ==> !LaneOf(n.host, k).tags[t].busy)
    && n.host.testPass && n.host.errors == 0
    && n == Node(n.host, map[], Ready, 0, 0, 0)
  }

  /** Each host has its own blocks. */
  ghost predicate OwnBlocks(plans: seq<Plan>) {
    forall i, j, a :: 0 <= i < |plans| && 0 <= j < |plans| && i != j && a in plans[i].blocks ==> a !in plans[j].blocks
  }

  ghost predicate AllStarting(plans: seq<Plan>, c: Cluster) {
    && |plans| == |c.nodes|
    && (forall i :: 0 <= i < |plans| ==> PlanOk(plans[i]))
    && forall i :: 0 <= i < |plans| ==> Starting(c.nodes[i])
  }

  lemma StartingBooked(p: Plan, n: Node)
    requires PlanOk(p) && Starting(n)
    ensures Booked(p, n)
  {
    forall t: nat | t < NUM_TAGS
      ensures BookedAt(p, n, t)
    {
    }
  }

  lemma StartingAgrees(p: Plan, n: Node, flash: map<Addr, Content>)
    requires PlanOk(p) && Starting(n)
    ensures Agrees(p, n, flash)
  {
    StartingBooked(p, n);
    forall j: nat | j < |p.blocks|
      ensures BlockInv(p, n, flash, j)
    {
    }
  }

  lemma AllStartingBooked(plans: seq<Plan>, c: Cluster)
    requires AllStarting(plans, c)
    ensures AllBooked(plans, c)
  {
    forall i | 0 <= i < |plans|
      ensures Booked(plans[i], c.nodes[i])
    {
      StartingBooked(plans[i], c.nodes[i]);
    }
  }

  // ----- any fabric -----

  /** Whatever the fabric answers, in every run each counter is the number of requests issued and not
      completed, a tag is busy exactly when it is held or in flight, no completion finds its counter at
      zero or its tag idle, and a failed verdict stays failed. */
  lemma {:induction false} RunBooked(plans: seq<Plan>, c: Cluster, es: seq<Event>)
    requires AllBooked(plans, c)
    ensures AllBooked(plans, Run(plans, c, es))
    ensures forall i :: 0 <= i < |plans| ==>
              && Run(plans, c, es).nodes[i].host.errors == c.nodes[i].host.errors
              && (Run(plans, c, es).nodes[i].host.testPass ==> c.nodes[i].host.testPass)
    decreases |es|
  {
    if es != [] {
      StepBooked(plans, c, es[0]);
      RunBooked(plans, Step(plans, c, es[0]), es[1..]);
    }
  }

  /** The test tells: a wrong valid word in a page read from a block recorded as WRITTEN fails the
      check of that page, and nothing that follows makes the test pass again. */
  lemma WrongWordFailsTest(plans: seq<Plan>, c: Cluster, i: nat, t: nat, w: nat, es: seq<Event>)
    requires AllBooked(plans, c) && i < |plans| && plans[i].check
    requires MayCheck(c.nodes[i], t) && w < VALID_WORDS
    requires var h := c.nodes[i].host;
             var a := Target(plans[i], c.nodes[i].flights[t].op);
             StatusOf(h, a) == WRITTEN && h.readBuffers[t][w] != Golden(a, w)
    ensures !Run(plans, c, [DataCheck(i, t)] + es).nodes[i].host.testPass
  {
    var p, n := plans[i], c.nodes[i];
    assert BookedAt(p, n, t) && EntryRight(p, n, t);
    var e := DataCheck(i, t);
    var c' := Step(plans, c, e);
    assert !c'.nodes[i].host.testPass by {
      assert n.host.read.tags[t].addr == Target(p, n.flights[t].op);
    }
    StepBooked(plans, c, e);
    RunBooked(plans, c', es);
    assert ([e] + es)[1..] == es;
  }

  /** No host is ever stuck: while its test runs, its thread can move or it has a request in flight,
      and for every request in flight the fabric or the callback thread can move. */
  lemma NeverStuck(plans: seq<Plan>, c: Cluster, i: nat)
    requires AllBooked(plans, c) && i < |plans| && Running(plans[i], c.nodes[i])
    ensures var n := c.nodes[i];
            && (Advance(plans[i], n) != n || n.flights != map[])
            && forall t <- n.flights :: MayTouch(n, t) || MayCheck(n, t) || MayFinish(n, t)
  {
    var p, n := plans[i], c.nodes[i];
    var k := KindOf(n.phase);
    forall t <- n.flights
      ensures MayTouch(n, t) || MayCheck(n, t) || MayFinish(n, t)
    {
      assert BookedAt(p, n, t) && EntryRight(p, n, t);
    }
    if Advance(p, n) == n {
      assert CountRight(n, k);
      if n.op < Ops(p, n.phase) {
        assert BookedAt(p, n, 0) && BusyRight(n, k, 0);
      }
    }
  }

  /** Nothing touches a request between its issue and its completion but the fabric itself: its table
      entry stays, and its buffers stay but for the page a read lands. */
  lemma InFlightUndisturbed(p: Plan, n: Node, e: Event, t: nat)
    requires Booked(p, n) && (!e.Main? ==> e.tag in n.flights)
    requires t in n.flights && t in NodeStep(p, n, e).flights
    ensures var r, k := NodeStep(p, n, e).host, KindOf(n.phase);
            && LaneOf(r, k).tags[t] == LaneOf(n.host, k).tags[t]
            && r.writeBuffers[t] == n.host.writeBuffers[t]
            && ((e.Fabric? && e.tag == t) || r.readBuffers[t] == n.host.readBuffers[t])
  {
    assert BookedAt(p, n, t) && BusyRight(n, KindOf(n.phase), t);
  }

  /** A block recorded as BAD stays so until it is erased again. */
  lemma BadUntilErased(p: Plan, n: Node, e: Event, a: Addr)
    requires Booked(p, n) && (!e.Main? ==> e.tag in n.flights)
    requires StatusOf(n.host, a) == BAD && StatusOf(NodeStep(p, n, e).host, a) != BAD
    ensures e.Main? && n.phase == 0 && n.pc.Filled? && a == Target(p, n.op)
  {
    match e
    case Main(_) =>
      if n.pc.Filled? {
        IssueStatus(n.host, KindOf(n.phase), Target(p, n.op), n.pc.tag, a);
      }
    case Fabric(_, _, _, _) =>
    case DataCheck(_, _) =>
    case Callback(_, t) => CompleteStatus(n.host, KindOf(n.phase), t, n.flights[t].bad, a);
  }

  // ----- a well-behaved fabric -----

  ghost predicate AllAgree(plans: seq<Plan>, c: Cluster) {
    |plans| == |c.nodes| && forall i :: 0 <= i < |plans| ==> Agrees(plans[i], c.nodes[i], c.flash)
  }

  /** Only a host's own blocks matter to it. */
  lemma AgreesElsewhere(p: Plan, n: Node, flash: map<Addr, Content>, flash': map<Addr, Content>)
    requires Agrees(p, n, flash)
    requires forall a :: a in p.blocks ==> At(flash', a) == At(flash, a)
    ensures Agrees(p, n, flash')
  {
    forall j: nat | j < |p.blocks|
      ensures BlockInv(p, n, flash', j)
    {
      assert BlockInv(p, n, flash, j);
      assert p.blocks[j] in p.blocks;
    }
    forall t | t in n.flights
      ensures FlightInv(p, n, flash', t)
    {
      assert FlightInv(p, n, flash, t);
      assert Target(p, n.flights[t].op) in p.blocks;
    }
    assert Target(p, n.op) in p.blocks;
  }

  lemma NodeStepAgrees(plans: seq<Plan>, c: Cluster, e: Event)
    requires AllBooked(plans, c) && AllAgree(plans, c) && Possible(plans, c, e) && WellBehaved(plans, c, e)
    ensures Agrees(plans[e.n], Step(plans, c, e).nodes[e.n], Step(plans, c, e).flash)
  {
    var p, n := plans[e.n], c.nodes[e.n];
    assert Agrees(p, n, c.flash);
    match e
    case Main(_) => AdvanceAgrees(p, n, c.flash);
    case Fabric(_, t, page, bad) => TouchAgrees(p, n, c.flash, t, page, bad);
    case DataCheck(_, t) => CheckAgrees(p, n, c.flash, t);
    case Callback(_, t) => FinishAgrees(p, n, c.flash, t);
  }

  lemma StepAgrees(plans: seq<Plan>, c: Cluster, e: Event)
    requires AllBooked(plans, c) && AllAgree(plans, c) && OwnBlocks(plans) && WellBehaved(plans, c, e)
    ensures AllAgree(plans, Step(plans, c, e))
  {
    if Possible(plans, c, e) {
      var c' := Step(plans, c, e);
      NodeStepAgrees(plans, c, e);
      forall i | 0 <= i < |plans| && i != e.n
        ensures Agrees(plans[i], c'.nodes[i], c'.flash)
      {
        assert Agrees(plans[i], c.nodes[i], c.flash);
        if e.Fabric? {
          assert Target(plans[e.n], c.nodes[e.n].flights[e.tag].op) in plans[e.n].blocks;
        }
        AgreesElsewhere(plans[i], c.nodes[i], c.flash, c'.flash);
      }
    }
  }

  lemma {:induction false} RunAgrees(plans: seq<Plan>, c: Cluster, es: seq<Event>)
    requires AllBooked(plans, c) && AllAgree(plans, c) && OwnBlocks(plans) && WellBehavedRun(plans, c, es)
    ensures AllAgree(plans, Run(plans, c, es))
    decreases |es|
  {
    if es != [] {
      StepAgrees(plans, c, es[0]);
      StepBooked(plans, c, es[0]);
      RunAgrees(plans, Step(plans, c, es[0]), es[1..]);
    }
  }

  /** On a well-behaved fabric, hosts with their own blocks never fail each other's tests: in every run,
      from any state of the boards and of the status tables, every host's verdict stays `pass`, and a
      host that has finished a round has each of its blocks recorded as BAD, or as WRITTEN and holding
      what was written. */
  lemma TestsPass(plans: seq<Plan>, c: Cluster, es: seq<Event>, i: nat)
    requires AllStarting(plans, c) && OwnBlocks(plans) && WellBehavedRun(plans, c, es)
    requires i < |plans|
    ensures var r := Run(plans, c, es);
            var n := r.nodes[i];
            && n.host.testPass && n.host.errors == 0
            && (n.rep > 0 && n.phase == 0 && n.op == 0 && n.pc.Ready? ==>
                 forall j :: 0 <= j < |plans[i].blocks| ==>
                   && Known(StatusOf(n.host, plans[i].blocks[j]), true)
                   && Settled(plans[i], n, r.flash, plans[i].blocks[j]))
  {
    AllStartingBooked(plans, c);
    forall k | 0 <= k < |plans|
      ensures Agrees(plans[k], c.nodes[k], c.flash)
    {
      StartingAgrees(plans[k], c.nodes[k], c.flash);
    }
    RunAgrees(plans, c, es);
    var r := Run(plans, c, es);
    assert Agrees(plans[i], r.nodes[i], r.flash);
    var n := r.nodes[i];
    if n.rep > 0 && n.phase == 0 && n.op == 0 && n.pc.Ready? {
      forall j | 0 <= j < |plans[i].blocks|
        ensures Known(StatusOf(n.host, plans[i].blocks[j]), true)
        ensures Settled(plans[i], n, r.flash, plans[i].blocks[j])
      {
        assert BlockInv(plans[i], n, r.flash, j);
      }
    }
  }
}
