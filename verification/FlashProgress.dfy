/**
 The tests of projects/flash_multinode can always be brought to their end, on
 a fabric that behaves, from any state they may have reached.
 */
module FlashProgress {
  import opened FlashHost
  import opened FlashCluster
  import opened FlashVerdict
  import opened FlashRuns

  // ----- what one host has left to do -----

  function PcRank(pc: Pc): nat {
    match pc
    case Ready => 3
    case Acquired(_) => 2
    case Filled(_) => 1
    case Locked(_) => 0
  }

  function AtStage(flights: map<nat, Flight>, stage: Stage): set<nat> {
    set t <- flights | flights[t].stage == stage
  }

  /** The test thread's own progress, compared first. */
  ghost predicate SamePlace(r: Node, n: Node) {
    r.rep == n.rep && r.phase == n.phase && r.op == n.op && r.pc == n.pc
  }

  ghost predicate FurtherOn(p: Plan, r: Node, n: Node) {
    || r.rep == n.rep + 1
    || (r.rep == n.rep && r.phase > n.phase)
    || (r.rep == n.rep && r.phase == n.phase && r.op > n.op)
    || (r.rep == n.rep && r.phase == n.phase && r.op == n.op && PcRank(r.pc) < PcRank(n.pc))
  }

  /** Then how far its requests in flight have got. */
  ghost predicate FewerLeft(r: Node, n: Node) {
    || |AtStage(r.flights, Requested)| < |AtStage(n.flights, Requested)|
    || (|AtStage(r.flights, Requested)| == |AtStage(n.flights, Requested)|
        && (|| |AtStage(r.flights, Performed)| < |AtStage(n.flights, Performed)|
            || (|AtStage(r.flights, Performed)| == |AtStage(n.flights, Performed)| && |r.flights| < |n.flights|)))
  }

  ghost predicate Nearer(p: Plan, r: Node, n: Node) {
    FurtherOn(p, r, n) || (SamePlace(r, n) && FewerLeft(r, n))
  }

  lemma AdvanceGoesOn(p: Plan, n: Node)
    requires Booked(p, n) && Running(p, n) && n.flights == map[]
    ensures FurtherOn(p, Advance(p, n), n)
  {
    var k := KindOf(n.phase);
    if n.op < Ops(p, n.phase) {
      assert BookedAt(p, n, 0) && BusyRight(n, k, 0);
    } else {
      assert CountRight(n, k);
    }
  }

  /** The stages after a request has moved on or completed. */
  lemma StageMoves(f: map<nat, Flight>, g: map<nat, Flight>, t: nat, stage: Stage)
    requires t in f && g - {t} == f - {t}
    ensures var left, right := f[t].stage == stage, t in g && g[t].stage == stage;
            |AtStage(g, stage)| + (if left then 1 else 0) == |AtStage(f, stage)| + if right then 1 else 0
  {
    WithoutOne(AtStage(f, stage), t);
    WithoutOne(AtStage(g, stage), t);
    StageOfOthers(f, t, stage);
    StageOfOthers(g, t, stage);
  }

  lemma StageOfOthers(f: map<nat, Flight>, t: nat, stage: Stage)
    ensures AtStage(f, stage) - {t} == AtStage(f - {t}, stage)
  {
  }

  lemma WithoutOne(a: set<nat>, t: nat)
    ensures |a| == |a - {t}| + if t in a then 1 else 0
  {
    assert a == if t in a then (a - {t}) + {t} else a - {t};
  }

  lemma TouchGoesOn(n: Node, t: nat, page: seq<nat>, bad: bool)
    requires FlashHost.Formed(n.host) && t < NUM_TAGS && MayTouch(n, t)
    ensures var r := Touch(n, t, page, bad);
            SamePlace(r, n) && FewerLeft(r, n)
  {
    var r := Touch(n, t, page, bad);
    assert r.flights - {t} == n.flights - {t};
    StageMoves(n.flights, r.flights, t, Requested);
  }

  lemma CheckGoesOn(p: Plan, n: Node, t: nat)
    requires FlashHost.Formed(n.host) && t < NUM_TAGS && MayCheck(n, t)
    ensures var r := Check(p, n, t);
            SamePlace(r, n) && FewerLeft(r, n)
  {
    var r := Check(p, n, t);
    assert r.flights - {t} == n.flights - {t};
    StageMoves(n.flights, r.flights, t, Requested);
    StageMoves(n.flights, r.flights, t, Performed);
  }

  lemma FinishGoesOn(n: Node, t: nat)
    requires FlashHost.Formed(n.host) && t < NUM_TAGS && t in n.flights && MayFinish(n, t)
    ensures var r := Finish(n, t);
            SamePlace(r, n) && FewerLeft(r, n)
  {
    var r := Finish(n, t);
    StageMoves(n.flights, r.flights, t, Requested);
    StageMoves(n.flights, r.flights, t, Performed);
    assert r.flights.Keys == n.flights.Keys - {t};
  }

  // ----- the boards -----

  /** Programmed pages are whole pages. */
  ghost predicate WholePages(flash: map<Addr, Content>) {
    forall a <- flash :: flash[a].Programmed? ==> |flash[a].page| == PAGE_WORDS
  }

  lemma TouchedWhole(p: Plan, n: Node, flash: map<Addr, Content>, t: nat, bad: bool)
    requires Booked(p, n) && t in n.flights && WholePages(flash)
    ensures WholePages(Touched(p, n, flash, t, bad))
  {
  }

  /** A page a well-behaved fabric may return for a block. */
  function SomePage(c: Content): seq<nat> {
    if c.Programmed? then c.page else seq(PAGE_WORDS, _ => 0)
  }

  // ----- all hosts -----

  /** One step of a host with a test still running, on a fabric that behaves, that brings it nearer. */
  lemma HostGoesOn(plans: seq<Plan>, c: Cluster, i: nat) returns (e: Event)
    requires AllBooked(plans, c) && WholePages(c.flash) && i < |plans| && Running(plans[i], c.nodes[i])
    ensures WellBehaved(plans, c, e) && Possible(plans, c, e) && e.n == i
    ensures (e.Main? <==> c.nodes[i].flights == map[]) && (e.Fabric? ==> !e.bad)
    ensures var c' := Step(plans, c, e);
            && AllBooked(plans, c') && WholePages(c'.flash)
            && Nearer(plans[i], c'.nodes[i], c.nodes[i])
            && c'.nodes == c.nodes[i := c'.nodes[i]]
  {
    var p, n := plans[i], c.nodes[i];
    NeverStuck(plans, c, i);
    if n.flights == map[] {
      e := Main(i);
      AdvanceGoesOn(p, n);
    } else {
      var t :| t in n.flights;
      assert BookedAt(p, n, t);
      if MayTouch(n, t) {
        var page := SomePage(At(c.flash, Target(p, n.flights[t].op)));
        e := Fabric(i, t, page, false);
        TouchGoesOn(n, t, page, false);
        TouchedWhole(p, n, c.flash, t, false);
      } else if MayCheck(n, t) {
        e := DataCheck(i, t);
        CheckGoesOn(p, n, t);
      } else {
        e := Callback(i, t);
        FinishGoesOn(n, t);
      }
    }
    StepBooked(plans, c, e);
  }

  lemma RunNext(plans: seq<Plan>, c: Cluster, e: Event, es: seq<Event>)
    requires WellBehaved(plans, c, e) && WellBehavedRun(plans, Step(plans, c, e), es)
    ensures WellBehavedRun(plans, c, [e] + es)
    ensures Run(plans, c, [e] + es) == Run(plans, Step(plans, c, e), es)
  {
    assert ([e] + es)[1..] == es;
  }

  /** From any state the tests may have reached there are steps, with a fabric that behaves, after which
      every host has finished. */
  lemma {:induction false} CanFinish(plans: seq<Plan>, c: Cluster, i: nat) returns (es: seq<Event>)
    requires AllBooked(plans, c) && WholePages(c.flash) && i <= |plans|
    requires forall j :: 0 <= j < i ==> !Running(plans[j], c.nodes[j])
    ensures WellBehavedRun(plans, c, es)
    ensures forall j :: 0 <= j < |plans| ==> !Running(plans[j], Run(plans, c, es).nodes[j])
    decreases |plans| - i,
              if i < |plans| then plans[i].testRepeat - c.nodes[i].rep else 0,
              if i < |plans| then 4 - c.nodes[i].phase else 0,
              if i < |plans| then Ops(plans[i], c.nodes[i].phase) - c.nodes[i].op else 0,
              if i < |plans| then PcRank(c.nodes[i].pc) else 0,
              if i < |plans| then |AtStage(c.nodes[i].flights, Requested)| else 0,
              if i < |plans| then |AtStage(c.nodes[i].flights, Performed)| else 0,
              if i < |plans| then |c.nodes[i].flights| else 0
  {
    if i == |plans| {
      es := [];
    } else if !Running(plans[i], c.nodes[i]) {
      es := CanFinish(plans, c, i + 1);
    } else {
      var e := HostGoesOn(plans, c, i);
      var rest := CanFinish(plans, Step(plans, c, e), i);
      RunNext(plans, c, e, rest);
      es := [e] + rest;
    }
  }

  /** So tests of hosts with their own blocks can all be run to the end, and pass. */
  lemma CanFinishPassing(plans: seq<Plan>, c: Cluster) returns (es: seq<Event>)
    requires AllStarting(plans, c) && OwnBlocks(plans) && WholePages(c.flash)
    ensures WellBehavedRun(plans, c, es)
    ensures forall i :: 0 <= i < |plans| ==>
              var n := Run(plans, c, es).nodes[i];
              !Running(plans[i], n) && n.host.testPass && n.host.errors == 0
  {
    AllStartingBooked(plans, c);
    es := CanFinish(plans, c, 0);
    forall i | 0 <= i < |plans|
      ensures Run(plans, c, es).nodes[i].host.testPass && Run(plans, c, es).nodes[i].host.errors == 0
    {
      TestsPass(plans, c, es, i);
    }
  }
}
