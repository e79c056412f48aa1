/**
 Why the tests of projects/flash_multinode need their own blocks: two hosts
 that share one can make a test fail although fabric and hosts all behave.
 */
module FlashSharing {
  import opened FlashHost
  import opened FlashCluster
  import opened FlashVerdict
  import opened FlashRuns
  import opened FlashProgress

  // ----- where a host is in its first round -----

  /** The test thread has not got past the point where it has just sent operation `op - 1` of the phase. */
  ghost predicate NotPast(n: Node, phase: nat, op: nat) {
    n.phase < phase || (n.phase == phase && (n.op < op || (n.op == op && n.pc.Ready?)))
  }

  ghost predicate Arrived(n: Node, phase: nat, op: nat) {
    n.phase == phase && n.op == op && n.pc.Ready?
  }

  /** The request of operation `op` is in flight and the fabric has not acted on it. */
  ghost predicate Sent(n: Node, op: nat) {
    exists t :: t in n.flights && n.flights[t] == Flight(op, Requested, false)
  }

  /** With no bad erase, the status of block `j` follows the test thread. */
  ghost predicate Following(p: Plan, n: Node, j: nat)
    requires j < |p.blocks|
  {
    var s := StatusOf(n.host, p.blocks[j]);
    && (forall t <- n.flights :: !n.flights[t].bad)
    && (n.phase == 0 && Issued(n, j) ==> s == ERASED)
    && (n.phase == 1 ==> s == ERASED)
    && (n.phase == 2 ==> s == if Issued(n, j) then WRITTEN else ERASED)
    && (n.phase == 3 ==> s == WRITTEN)
  }

  ghost predicate OnTheWay(p: Plan, n: Node, phase: nat, op: nat, j: nat) {
    && PlanOk(p) && j < |p.blocks|
    && n.rep == 0 && Running(p, n) && phase < 4 && op <= Ops(p, phase)
    && NotPast(n, phase, op) && Following(p, n, j)
  }

  lemma LockFollows(p: Plan, n: Node, j: nat)
    requires Booked(p, n) && PlanOk(p) && j < |p.blocks| && Running(p, n) && n.op < Ops(p, n.phase) && n.pc.Filled?
    requires Following(p, n, j)
    ensures Following(p, Advance(p, n), j)
  {
    IssueStatus(n.host, KindOf(n.phase), Target(p, n.op), n.pc.tag, p.blocks[j]);
    RemainderOfSmall(j, |p.blocks|);
    if KindOf(n.phase) != Read && j != n.op {
      TargetsDiffer(p, j, n.op);
    }
  }

  lemma MainFollows(p: Plan, n: Node, phase: nat, op: nat, j: nat)
    requires Booked(p, n) && OnTheWay(p, n, phase, op, j) && !Arrived(n, phase, op) && n.flights == map[]
    ensures OnTheWay(p, Advance(p, n), phase, op, j)
    ensures Arrived(Advance(p, n), phase, op) && op > 0 ==> Sent(Advance(p, n), op - 1)
  {
    var r := Advance(p, n);
    if n.op < Ops(p, n.phase) && n.pc.Filled? {
      LockFollows(p, n, j);
    } else if n.op < Ops(p, n.phase) && n.pc.Locked? {
      assert r.flights[n.pc.tag] == Flight(n.op, Requested, false);
    }
  }

  lemma FlightFollows(p: Plan, n: Node, e: Event, phase: nat, op: nat, j: nat)
    requires Booked(p, n) && OnTheWay(p, n, phase, op, j)
    requires !e.Main? && e.tag in n.flights && (e.Fabric? ==> !e.bad)
    ensures OnTheWay(p, NodeStep(p, n, e), phase, op, j)
    ensures Arrived(NodeStep(p, n, e), phase, op) ==> Arrived(n, phase, op)
  {
    if e.Callback? {
      CompleteStatus(n.host, KindOf(n.phase), e.tag, n.flights[e.tag].bad, p.blocks[j]);
    }
  }

  // ----- driving one host there -----

  lemma DriveStep(plans: seq<Plan>, c: Cluster, i: nat, phase: nat, op: nat, j: nat) returns (e: Event)
    requires AllBooked(plans, c) && WholePages(c.flash) && i < |plans|
    requires OnTheWay(plans[i], c.nodes[i], phase, op, j) && !Arrived(c.nodes[i], phase, op)
    ensures WellBehaved(plans, c, e)
    ensures var c' := Step(plans, c, e);
            && AllBooked(plans, c') && WholePages(c'.flash)
            && Nearer(plans[i], c'.nodes[i], c.nodes[i]) && c'.nodes == c.nodes[i := c'.nodes[i]]
            && OnTheWay(plans[i], c'.nodes[i], phase, op, j)
            && (Arrived(c'.nodes[i], phase, op) && op > 0 ==> Sent(c'.nodes[i], op - 1))
  {
    e := HostGoesOn(plans, c, i);
    var p, n := plans[i], c.nodes[i];
    assert Step(plans, c, e).nodes[i] == NodeStep(p, n, e);
    if e.Main? {
      MainFollows(p, n, phase, op, j);
    } else {
      FlightFollows(p, n, e, phase, op, j);
    }
  }

  /** A host in its first round can be brought to where it has just sent operation `op - 1` of a phase, without
      a step of any other host. */
  lemma {:induction false} Drive(plans: seq<Plan>, c: Cluster, i: nat, phase: nat, op: nat, j: nat)
    returns (es: seq<Event>)
    requires AllBooked(plans, c) && WholePages(c.flash) && i < |plans| && op > 0
    requires OnTheWay(plans[i], c.nodes[i], phase, op, j)
    requires Arrived(c.nodes[i], phase, op) ==> Sent(c.nodes[i], op - 1)
    ensures WellBehavedRun(plans, c, es)
    ensures var c' := Run(plans, c, es);
            && AllBooked(plans, c') && WholePages(c'.flash) && c'.nodes == c.nodes[i := c'.nodes[i]]
            && OnTheWay(plans[i], c'.nodes[i], phase, op, j)
            && Arrived(c'.nodes[i], phase, op) && Sent(c'.nodes[i], op - 1)
    decreases plans[i].testRepeat - c.nodes[i].rep, 4 - c.nodes[i].phase,
              Ops(plans[i], c.nodes[i].phase) - c.nodes[i].op, PcRank(c.nodes[i].pc),
              |AtStage(c.nodes[i].flights, Requested)|, |AtStage(c.nodes[i].flights, Performed)|,
              |c.nodes[i].flights|
  {
    if Arrived(c.nodes[i], phase, op) {
      es := [];
    } else {
      var e := DriveStep(plans, c, i, phase, op, j);
      var rest := Drive(plans, Step(plans, c, e), i, phase, op, j);
      RunNext(plans, c, e, rest);
      es := [e] + rest;
    }
  }

  lemma {:induction false} RunAppend(plans: seq<Plan>, c: Cluster, a: seq<Event>, b: seq<Event>)
    requires WellBehavedRun(plans, c, a) && WellBehavedRun(plans, Run(plans, c, a), b)
    ensures WellBehavedRun(plans, c, a + b) && Run(plans, c, a + b) == Run(plans, Run(plans, c, a), b)
    decreases |a|
  {
    if a == [] {
      assert a + b == b;
    } else {
      RunAppend(plans, Step(plans, c, a[0]), a[1..], b);
      assert (a + b)[0] == a[0] && (a + b)[1..] == a[1..] + b;
    }
  }

  // ----- the shared block -----

  /** The page the fabric returns of the erased block. */
  function Ones(): (page: seq<nat>)
    ensures |page| == PAGE_WORDS && page[0] == ALL_ONES
  {
    seq(PAGE_WORDS, _ => ALL_ONES)
  }

  /** One host waits to read a block it has written while another's erase of it is on its way. */
  ghost predicate Exposed(plans: seq<Plan>, c: Cluster, i: nat, k: nat, a: Addr, t: nat, u: nat)
    requires AllBooked(plans, c)
  {
    && i < |plans| && k < |plans| && i != k && plans[i].check && PlanOk(plans[i])
    && c.nodes[i].phase == 3 && MayTouch(c.nodes[i], t) && c.nodes[k].phase == 0 && MayTouch(c.nodes[k], u)
    && Target(plans[i], c.nodes[i].flights[t].op) == a == Target(plans[k], c.nodes[k].flights[u].op)
    && StatusOf(c.nodes[i].host, a) == WRITTEN && OnBoard(a)
  }

  lemma ErasedInBetween(plans: seq<Plan>, c: Cluster, i: nat, k: nat, a: Addr, t: nat, u: nat)
    returns (es: seq<Event>)
    requires AllBooked(plans, c) && Exposed(plans, c, i, k, a, t, u)
    ensures WellBehavedRun(plans, c, es) && !Run(plans, c, es).nodes[i].host.testPass
  {
    var e1, e2, e3 := Fabric(k, u, Ones(), false), Fabric(i, t, Ones(), false), DataCheck(i, t);
    var c1 := Step(plans, c, e1);
    StepBooked(plans, c, e1);
    var c2 := Step(plans, c1, e2);
    StepBooked(plans, c1, e2);
    GoldenFits(a, 0);
    WrongWordFailsTest(plans, c2, i, t, 0, []);
    RunNext(plans, c1, e2, [e3] + []);
    RunNext(plans, c, e1, [e2] + ([e3] + []));
    es := [e1] + ([e2] + ([e3] + []));
  }

  lemma StartsOnTheWay(p: Plan, n: Node, phase: nat, op: nat, j: nat)
    requires PlanOk(p) && Starting(n) && p.testRepeat > 0 && j < |p.blocks|
    requires phase < 4 && 0 < op <= Ops(p, phase)
    ensures OnTheWay(p, n, phase, op, j) && !Arrived(n, phase, op)
  {
  }

  lemma Waiting(p: Plan, n: Node, phase: nat, j: nat) returns (t: nat)
    requires PlanOk(p) && Booked(p, n) && j < |p.blocks| && OnTheWay(p, n, phase, j + 1, j)
    requires Arrived(n, phase, j + 1) && Sent(n, j)
    ensures MayTouch(n, t) && Target(p, n.flights[t].op) == p.blocks[j]
    ensures phase == 3 ==> StatusOf(n.host, p.blocks[j]) == WRITTEN
  {
    t :| t in n.flights && n.flights[t] == Flight(j, Requested, false);
    RemainderOfSmall(j, |p.blocks|);
  }

  lemma BothDriven(plans: seq<Plan>, c: Cluster, i: nat, k: nat, ji: nat, jk: nat)
    returns (es: seq<Event>)
    requires AllBooked(plans, c) && WholePages(c.flash) && i < |plans| && k < |plans| && i != k
    requires ji < |plans[i].blocks| && jk < |plans[k].blocks|
    requires OnTheWay(plans[i], c.nodes[i], 3, ji + 1, ji) && !Arrived(c.nodes[i], 3, ji + 1)
    requires OnTheWay(plans[k], c.nodes[k], 0, jk + 1, jk) && !Arrived(c.nodes[k], 0, jk + 1)
    ensures WellBehavedRun(plans, c, es) && AllBooked(plans, Run(plans, c, es))
    ensures var n := Run(plans, c, es).nodes[i];
            OnTheWay(plans[i], n, 3, ji + 1, ji) && Arrived(n, 3, ji + 1) && Sent(n, ji)
    ensures var n := Run(plans, c, es).nodes[k];
            OnTheWay(plans[k], n, 0, jk + 1, jk) && Arrived(n, 0, jk + 1) && Sent(n, jk)
  {
    var first := Drive(plans, c, k, 0, jk + 1, jk);
    var second := Drive(plans, Run(plans, c, first), i, 3, ji + 1, ji);
    RunAppend(plans, c, first, second);
    es := first + second;
  }

  /** With checking on, any two hosts that share a block have a run, with fabric and hosts all behaving, in
      which the test of one fails. */
  lemma SharedBlockFails(plans: seq<Plan>, c: Cluster, i: nat, k: nat, a: Addr) returns (es: seq<Event>)
    requires AllStarting(plans, c) && WholePages(c.flash)
    requires i < |plans| && k < |plans| && i != k && a in plans[i].blocks && a in plans[k].blocks
    requires plans[i].check && plans[i].testRepeat > 0 && plans[i].readRepeat > 0 && plans[k].testRepeat > 0
    ensures WellBehavedRun(plans, c, es) && !Run(plans, c, es).nodes[i].host.testPass
  {
    AllStartingBooked(plans, c);
    var ji: nat :| ji < |plans[i].blocks| && plans[i].blocks[ji] == a;
    var jk: nat :| jk < |plans[k].blocks| && plans[k].blocks[jk] == a;
    ReadsAll(plans[i]);
    StartsOnTheWay(plans[i], c.nodes[i], 3, ji + 1, ji);
    StartsOnTheWay(plans[k], c.nodes[k], 0, jk + 1, jk);
    var before := BothDriven(plans, c, i, k, ji, jk);
    var after := Fails(plans, Run(plans, c, before), i, k, ji, jk);
    RunAppend(plans, c, before, after);
    es := before + after;
  }

  lemma ReadsAll(p: Plan)
    requires p.readRepeat > 0
    ensures Ops(p, 3) >= |p.blocks|
  {
    assert |p.blocks| * p.readRepeat == |p.blocks| + |p.blocks| * (p.readRepeat - 1);
  }

  lemma Fails(plans: seq<Plan>, c: Cluster, i: nat, k: nat, ji: nat, jk: nat) returns (es: seq<Event>)
    requires AllBooked(plans, c) && i < |plans| && k < |plans| && i != k && plans[i].check
    requires ji < |plans[i].blocks| && jk < |plans[k].blocks| && plans[i].blocks[ji] == plans[k].blocks[jk]
    requires OnTheWay(plans[i], c.nodes[i], 3, ji + 1, ji) && Arrived(c.nodes[i], 3, ji + 1) && Sent(c.nodes[i], ji)
    requires OnTheWay(plans[k], c.nodes[k], 0, jk + 1, jk) && Arrived(c.nodes[k], 0, jk + 1) && Sent(c.nodes[k], jk)
    ensures WellBehavedRun(plans, c, es) && !Run(plans, c, es).nodes[i].host.testPass
  {
    var t := Waiting(plans[i], c.nodes[i], 3, ji);
    var u := Waiting(plans[k], c.nodes[k], 0, jk);
    es := ErasedInBetween(plans, c, i, k, plans[i].blocks[ji], t, u);
  }

  /** Every verdict stays `pass` in every run with fabric and hosts behaving. */
  ghost predicate AlwaysPass(plans: seq<Plan>, c: Cluster) {
    forall es {:trigger WellBehavedRun(plans, c, es)} :: WellBehavedRun(plans, c, es) ==>
      NoneFailed(Run(plans, c, es))
  }

  ghost predicate NoneFailed(c: Cluster) {
    forall i :: 0 <= i < |c.nodes| ==> c.nodes[i].host.testPass
  }

  lemma OwnBlocksPass(plans: seq<Plan>, c: Cluster)
    requires AllStarting(plans, c) && OwnBlocks(plans)
    ensures AlwaysPass(plans, c)
  {
    forall es | WellBehavedRun(plans, c, es)
      ensures NoneFailed(Run(plans, c, es))
    {
      forall i | 0 <= i < |plans|
        ensures Run(plans, c, es).nodes[i].host.testPass
      {
        TestsPass(plans, c, es, i);
      }
    }
  }

  /** So hosts that check their data pass under every interleaving if and only if no two share a block. */
  lemma PassIffOwnBlocks(plans: seq<Plan>, c: Cluster)
    requires AllStarting(plans, c) && WholePages(c.flash)
    requires forall i :: 0 <= i < |plans| ==>
               plans[i].check && plans[i].testRepeat > 0 && plans[i].readRepeat > 0
    ensures OwnBlocks(plans) <==> AlwaysPass(plans, c)
  {
    if OwnBlocks(plans) {
      OwnBlocksPass(plans, c);
    } else {
      var i: nat, k: nat, a :| i < |plans| && k < |plans| && i != k && a in plans[i].blocks && a in plans[k].blocks;
      var es := SharedBlockFails(plans, c, i, k, a);
    }
  }
}
