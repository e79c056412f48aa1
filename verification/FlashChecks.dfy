/**
 What the verdict of a test of projects/flash_multinode is worth: a host that has
 finished has passed exactly if every page the fabric returned to it was one the
 recorded status of its block allows.
 */
module FlashChecks {
  import opened FlashHost
  import opened FlashCluster
  import opened FlashVerdict
  import opened FlashRuns

  /** What a page read must be: the expected words in a block recorded as WRITTEN, all ones or zero at the
      start of one recorded as ERASED, anything from one recorded as BAD, and nothing will do for a block
      of which nothing is recorded. */
  ghost predicate RightPage(s: Status, a: Addr, page: seq<nat>)
    requires |page| == PAGE_WORDS
  {
    || (s == WRITTEN && forall w {:trigger page[w]} :: 0 <= w < 2056 ==>
          page[w] == 0x800_0000 * a.node + 0x100_0000 * a.bus + 0x10_0000 * a.chip + 0x1_0000 * a.block + w)
    || (s == ERASED && (page[0] == 0 || page[0] == 0xFFFF_FFFF))
    || s == BAD
  }

  lemma CheckDecidesHere(p: Plan, n: Node, t: nat)
    requires Booked(p, n) && MayCheck(n, t)
    ensures var a := Target(p, n.flights[t].op);
            Check(p, n, t).host.testPass <==>
              n.host.testPass && (p.check ==> RightPage(StatusOf(n.host, a), a, n.host.readBuffers[t]))
  {
    var a := Target(p, n.flights[t].op);
    assert BookedAt(p, n, t) && EntryRight(p, n, t);
    assert n.host.read.tags[t].addr == a;
    assert HoldsGolden(a, n.host.readBuffers[t], VALID_WORDS) <==>
           RightPage(WRITTEN, a, n.host.readBuffers[t]);
  }

  /** After the check of a page, with checking on, the verdict is pass if and only if it was before and the
      page is right for the status of the block the request was issued for. */
  lemma CheckDecides(plans: seq<Plan>, c: Cluster, i: nat, t: nat)
    requires AllBooked(plans, c) && i < |plans| && MayCheck(c.nodes[i], t)
    ensures var h, a := c.nodes[i].host, Target(plans[i], c.nodes[i].flights[t].op);
            Step(plans, c, DataCheck(i, t)).nodes[i].host.testPass <==>
              h.testPass && (plans[i].check ==> RightPage(StatusOf(h, a), a, h.readBuffers[t]))
  {
    CheckDecidesHere(plans[i], c.nodes[i], t);
  }

  /** A page read from a block recorded as ERASED that starts with neither, or from a block of which nothing
      is recorded, fails the test for good. */
  lemma WrongStateFailsTest(plans: seq<Plan>, c: Cluster, i: nat, t: nat, es: seq<Event>)
    requires AllBooked(plans, c) && i < |plans| && plans[i].check && MayCheck(c.nodes[i], t)
    requires var h, a := c.nodes[i].host, Target(plans[i], c.nodes[i].flights[t].op);
             || (StatusOf(h, a) == ERASED && h.readBuffers[t][0] != 0 && h.readBuffers[t][0] != 0xFFFF_FFFF)
             || StatusOf(h, a) == UNINIT
    ensures !Run(plans, c, [DataCheck(i, t)] + es).nodes[i].host.testPass
  {
    var e := DataCheck(i, t);
    CheckDecides(plans, c, i, t);
    StepBooked(plans, c, e);
    RunBooked(plans, Step(plans, c, e), es);
    assert ([e] + es)[1..] == es;
  }

  // ----- every page is checked -----

  /** The request of tag `t` is a read to be checked that the fabric has answered with a wrong page. */
  ghost predicate WrongAt(p: Plan, n: Node, t: nat)
    requires Formed(n.host) && |p.blocks| > 0
  {
    && t < NUM_TAGS && t in n.flights && p.check && KindOf(n.phase) == Read
    && n.flights[t].stage == Performed
    && var a := Target(p, n.flights[t].op); !RightPage(StatusOf(n.host, a), a, n.host.readBuffers[t])
  }

  /** The test has failed, or is going to. */
  ghost predicate Doomed(p: Plan, n: Node)
    requires Formed(n.host) && |p.blocks| > 0
  {
    !n.host.testPass || exists t :: WrongAt(p, n, t)
  }

  /** The step is the fabric's, which returns a wrong page for a read to be checked. */
  ghost predicate ReturnsWrong(p: Plan, n: Node, e: Event)
    requires Booked(p, n) && (!e.Main? ==> e.tag in n.flights)
  {
    && e.Fabric? && |e.page| == PAGE_WORDS && p.check && (n.phase == 1 || n.phase == 3)
    && var a := Target(p, n.flights[e.tag].op); !RightPage(StatusOf(n.host, a), a, e.page)
  }

  ghost predicate May(p: Plan, n: Node, e: Event) {
    match e
    case Main(_) => Running(p, n)
    case Fabric(_, t, page, _) => MayTouch(n, t) && |page| == PAGE_WORDS
    case DataCheck(_, t) => MayCheck(n, t)
    case Callback(_, t) => t in n.flights && MayFinish(n, t)
  }

  /** While reads are in flight the thread changes no status and no read buffer. */
  lemma AdvanceKeepsWrong(p: Plan, n: Node, t: nat)
    requires Booked(p, n) && Running(p, n) && Placed(p, Advance(p, n))
    ensures WrongAt(p, Advance(p, n), t) <==> WrongAt(p, n, t)
  {
    if n.op >= Ops(p, n.phase) && LaneOf(n.host, KindOf(n.phase)).inFlight == 0 {
      BarrierHolds(p, n);
    }
  }

  lemma TouchWrongAt(p: Plan, n: Node, e: Event, t: nat)
    requires Booked(p, n) && e.Fabric? && May(p, n, e) && Placed(p, NodeStep(p, n, e))
    ensures WrongAt(p, NodeStep(p, n, e), t) <==> if t == e.tag then ReturnsWrong(p, n, e) else WrongAt(p, n, t)
  {
  }

  lemma CheckWrongAt(p: Plan, n: Node, u: nat, t: nat)
    requires Booked(p, n) && MayCheck(n, u) && Placed(p, Check(p, n, u))
    ensures WrongAt(p, Check(p, n, u), t) <==> t != u && WrongAt(p, n, t)
  {
  }

  lemma FinishWrongAt(p: Plan, n: Node, u: nat, t: nat)
    requires Booked(p, n) && u in n.flights && MayFinish(n, u) && Placed(p, Finish(n, u))
    ensures WrongAt(p, Finish(n, u), t) <==> WrongAt(p, n, t)
  {
  }

  lemma StepDooms(p: Plan, n: Node, e: Event)
    requires Booked(p, n) && May(p, n, e)
    ensures Booked(p, NodeStep(p, n, e))
    ensures Doomed(p, NodeStep(p, n, e)) <==> Doomed(p, n) || ReturnsWrong(p, n, e)
  {
    NodeStepBooked(p, n, e);
    var r := NodeStep(p, n, e);
    match e
    case Main(_) =>
      AdvanceKeepsVerdict(p, n);
      forall t ensures WrongAt(p, r, t) <==> WrongAt(p, n, t) {
        AdvanceKeepsWrong(p, n, t);
      }
    case Fabric(_, u, page, bad) =>
      forall t ensures WrongAt(p, r, t) <==> if t == u then ReturnsWrong(p, n, e) else WrongAt(p, n, t) {
        TouchWrongAt(p, n, e, t);
      }
      assert !WrongAt(p, n, u) && (WrongAt(p, r, u) <==> ReturnsWrong(p, n, e));
    case DataCheck(_, u) =>
      CheckDecidesHere(p, n, u);
      forall t ensures WrongAt(p, r, t) <==> t != u && WrongAt(p, n, t) {
        CheckWrongAt(p, n, u, t);
      }
      assert r.host.testPass <==> n.host.testPass && !WrongAt(p, n, u);
    case Callback(_, u) =>
      FinishBooked(p, n, u);
      forall t ensures WrongAt(p, r, t) <==> WrongAt(p, n, t) {
        FinishWrongAt(p, n, u, t);
      }
  }

  // ----- every run -----

  /** In the run the fabric returns a wrong page to host `i` for a read to be checked. */
  ghost predicate WrongPageReturned(plans: seq<Plan>, c: Cluster, es: seq<Event>, i: nat)
    requires AllBooked(plans, c) && i < |plans|
    decreases |es|
  {
    if es == [] then false else
    StepBooked(plans, c, es[0]);
    || (es[0].n == i && Possible(plans, c, es[0]) && ReturnsWrong(plans[i], c.nodes[i], es[0]))
    || WrongPageReturned(plans, Step(plans, c, es[0]), es[1..], i)
  }

  lemma StepDoomsHost(plans: seq<Plan>, c: Cluster, e: Event, i: nat)
    requires AllBooked(plans, c) && i < |plans|
    ensures AllBooked(plans, Step(plans, c, e))
    ensures Doomed(plans[i], Step(plans, c, e).nodes[i]) <==>
            || Doomed(plans[i], c.nodes[i])
            || (e.n == i && Possible(plans, c, e) && ReturnsWrong(plans[i], c.nodes[i], e))
  {
    StepBooked(plans, c, e);
    if Possible(plans, c, e) && e.n == i {
      StepDooms(plans[i], c.nodes[i], e);
    }
  }

  lemma {:induction false} RunDooms(plans: seq<Plan>, c: Cluster, es: seq<Event>, i: nat)
    requires AllBooked(plans, c) && i < |plans|
    ensures AllBooked(plans, Run(plans, c, es))
    ensures Doomed(plans[i], Run(plans, c, es).nodes[i]) <==>
            Doomed(plans[i], c.nodes[i]) || WrongPageReturned(plans, c, es, i)
    decreases |es|
  {
    if es != [] {
      StepDoomsHost(plans, c, es[0], i);
      RunDooms(plans, Step(plans, c, es[0]), es[1..], i);
    }
  }

  /** The verdict is exact: on any fabric, in every run after which a host has finished its test, the test has
      passed if and only if no read to be checked has been answered with a wrong page. */
  lemma VerdictIsExact(plans: seq<Plan>, c: Cluster, es: seq<Event>, i: nat)
    requires AllStarting(plans, c) && i < |plans| && !Running(plans[i], Run(plans, c, es).nodes[i])
    ensures AllBooked(plans, c)
    ensures Run(plans, c, es).nodes[i].host.testPass <==> !WrongPageReturned(plans, c, es, i)
  {
    AllStartingBooked(plans, c);
    RunDooms(plans, c, es, i);
  }

  /** Without checking the verdict never falls, and no write buffer is filled. */
  lemma {:induction false} UncheckedTouchesNothing(plans: seq<Plan>, c: Cluster, es: seq<Event>, i: nat)
    requires AllBooked(plans, c) && i < |plans| && !plans[i].check
    ensures var h, r := c.nodes[i].host, Run(plans, c, es).nodes[i].host;
            r.testPass == h.testPass && r.writeBuffers == h.writeBuffers
    decreases |es|
  {
    if es != [] {
      StepUnchecked(plans, c, es[0], i);
      StepBooked(plans, c, es[0]);
      UncheckedTouchesNothing(plans, Step(plans, c, es[0]), es[1..], i);
    }
  }

  lemma StepUnchecked(plans: seq<Plan>, c: Cluster, e: Event, i: nat)
    requires AllBooked(plans, c) && i < |plans| && !plans[i].check
    ensures var h, r := c.nodes[i].host, Step(plans, c, e).nodes[i].host;
            r.testPass == h.testPass && r.writeBuffers == h.writeBuffers
  {
    if e.n == i && Possible(plans, c, e) && e.Callback? {
      FinishBooked(plans[i], c.nodes[i], e.tag);
    }
  }

  // ----- completions -----

  /** A completion frees its tag and lowers its counter, not below zero; the verdict stays pass if and only if
      the tag was busy and, for an erase, the counter above zero; a bad erase alone is recorded. */
  lemma CompletionCounts(h: Host, k: Kind, t: nat, bad: bool)
    requires Formed(h) && t < NUM_TAGS
    ensures var r, l := Complete(h, k, t, bad), LaneOf(h, k);
            && (r.testPass <==> h.testPass && l.tags[t].busy && (k == Erase ==> l.inFlight > 0))
            && LaneOf(r, k).tags == l.tags[t := Entry(false, l.tags[t].addr)]
            && LaneOf(r, k).inFlight == (if l.inFlight > 0 then l.inFlight - 1 else 0)
            && r.errors == h.errors + (if l.inFlight > 0 then 0 else 1) + (if l.tags[t].busy then 0 else 1)
            && (forall j :: j != k ==> LaneOf(r, j) == LaneOf(h, j))
            && forall a :: StatusOf(r, a) == if k == Erase && bad && a == l.tags[t].addr then BAD else StatusOf(h, a)
  {
  }

  // ----- what the expected words tell -----

  /** The expected words tell the blocks below 16 of all chips apart, and the words of a page ... */
  lemma GoldenTellsLowBlocks(a: Addr, v: nat, b: Addr, w: nat)
    requires OnBoard(a) && OnBoard(b) && a.block < 16 && b.block < 16 && v < PAGE_WORDS && w < PAGE_WORDS
    ensures Golden(a, v) == Golden(b, w) <==> a == b && v == w
  {
  }

  /** ... but not the higher ones from blocks of the next chips: a page written for one block passes as that of
      another if and only if their numbers differ by 16 for every chip they are apart, counting 16 chips to a
      bus and 8 buses to a node. */
  lemma GoldenTells(a: Addr, b: Addr)
    requires OnBoard(a) && OnBoard(b)
    ensures HoldsGolden(a, GoldenPage(b), VALID_WORDS) <==>
            a.block - b.block == 16 * ((b.chip - a.chip) + 16 * ((b.bus - a.bus) + 8 * (b.node - a.node)))
  {
    var page := GoldenPage(b);
    assert page[0] == Golden(b, 0);
    if Golden(a, 0) == Golden(b, 0) {
      assert forall w :: 0 <= w < VALID_WORDS ==> page[w] == Golden(a, w);
    }
  }
}
