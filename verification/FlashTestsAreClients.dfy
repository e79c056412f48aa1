/**
 A host running one of the tests of projects/flash_multinode/main.cpp is a
 client: each of its steps is a step of FlashClient, or none at all.
 */
module FlashTestsAreClients {
  import opened FlashHost
  import opened FlashCluster
  import opened FlashVerdict
  import opened FlashRuns
  import FlashClient

  function InFlight(p: Plan, n: Node): map<nat, FlashClient.Request>
    requires |p.blocks| > 0
  {
    var sent := map t <- n.flights ::
      FlashClient.Request(Target(p, n.flights[t].op), n.flights[t].stage, n.flights[t].bad);
    if n.pc.Locked? then sent[n.pc.tag := FlashClient.Request(Target(p, n.op), Requested, false)] else sent
  }

  function UseNow(p: Plan, n: Node): FlashClient.Use
    requires |p.blocks| > 0
  {
    FlashClient.Use(if n.pc.Acquired? || n.pc.Filled? then {n.pc.tag} else {}, InFlight(p, n))
  }

  const NONE := FlashClient.Use({}, map[])

  /** The client a host is: what it holds and has in flight is of the kind of its phase. */
  function ClientOf(p: Plan, n: Node): FlashClient.System
    requires |p.blocks| > 0
  {
    FlashClient.WithUse(FlashClient.System(n.host, NONE, NONE, NONE), KindOf(n.phase), UseNow(p, n))
  }

  lemma OwnKeys(p: Plan, n: Node)
    requires Placed(p, n) && |p.blocks| > 0
    ensures |InFlight(p, n).Keys| == |n.flights.Keys| + if n.pc.Locked? then 1 else 0
    ensures forall t <- InFlight(p, n) :: t < NUM_TAGS
  {
    assert InFlight(p, n).Keys == if n.pc.Locked? then n.flights.Keys + {n.pc.tag} else n.flights.Keys;
  }

  lemma OwnLane(p: Plan, n: Node)
    requires Booked(p, n)
    ensures FlashClient.LaneBooked(LaneOf(n.host, KindOf(n.phase)), UseNow(p, n), KindOf(n.phase))
  {
    var k := KindOf(n.phase);
    assert CountRight(n, k);
    OwnKeys(p, n);
    forall t | 0 <= t < NUM_TAGS
      ensures FlashClient.TagBooked(LaneOf(n.host, k), UseNow(p, n), k, t)
    {
      OwnTag(p, n, t);
    }
  }

  lemma OwnTag(p: Plan, n: Node, t: nat)
    requires Booked(p, n) && t < NUM_TAGS
    ensures FlashClient.TagBooked(LaneOf(n.host, KindOf(n.phase)), UseNow(p, n), KindOf(n.phase), t)
  {
    assert BookedAt(p, n, t) && BusyRight(n, KindOf(n.phase), t) && EntryRight(p, n, t);
  }

  lemma OtherLane(p: Plan, n: Node, k: Kind)
    requires Booked(p, n) && k != KindOf(n.phase)
    ensures FlashClient.LaneBooked(LaneOf(n.host, k), NONE, k)
  {
    assert CountRight(n, k);
    forall t | 0 <= t < NUM_TAGS
      ensures FlashClient.TagBooked(LaneOf(n.host, k), NONE, k, t)
    {
      assert BookedAt(p, n, t) && BusyRight(n, k, t);
    }
  }

  lemma ClientBooked(p: Plan, n: Node)
    requires Booked(p, n)
    ensures FlashClient.Booked(ClientOf(p, n))
  {
    var s := ClientOf(p, n);
    forall k
      ensures FlashClient.LaneBooked(LaneOf(s.host, k), FlashClient.UseOf(s, k), k)
    {
      if k == KindOf(n.phase) {
        OwnLane(p, n);
      } else {
        OtherLane(p, n, k);
      }
    }
  }

  /** What the client does at a step of the host, if anything. */
  function Does(p: Plan, n: Node, e: Event): (d: seq<FlashClient.Event>)
    requires |p.blocks| > 0 && (!e.Main? ==> e.tag in n.flights)
    ensures |d| <= 1
  {
    var k := KindOf(n.phase);
    match e
    case Main(_) =>
      if n.op >= Ops(p, n.phase) then [] else
      (match n.pc
       case Ready => [FlashClient.TakeTag(k)]
       case Acquired(t) => if k == Write && p.check then [FlashClient.Fill(t, GoldenPage(Target(p, n.op)))] else []
       case Filled(t) => [FlashClient.IssueRequest(k, t, Target(p, n.op))]
       case Locked(_) => [])
    case Fabric(_, t, page, bad) => [FlashClient.Perform(k, t, page, bad)]
    case DataCheck(_, t) => [FlashClient.DataCheck(p.check, t)]
    case Callback(_, t) => [FlashClient.Callback(k, t)]
  }

  /** A client is known by its host and what it uses. */
  lemma SameClient(p: Plan, n: Node, r: Node, s: FlashClient.System)
    requires |p.blocks| > 0 && r.phase == n.phase
    requires s == FlashClient.WithUse(ClientOf(p, n).(host := r.host), KindOf(n.phase), UseNow(p, r))
    ensures ClientOf(p, r) == s
  {
  }

  lemma TakeIsClient(p: Plan, n: Node)
    requires Booked(p, n) && n.op < Ops(p, n.phase) && n.pc.Ready? && FlashClient.Booked(ClientOf(p, n))
    ensures ClientOf(p, Advance(p, n)) == FlashClient.Step(ClientOf(p, n), FlashClient.TakeTag(KindOf(n.phase)))
  {
    var k := KindOf(n.phase);
    var t := FirstIdle(LaneOf(n.host, k).tags, NUM_TAGS);
    var r := Advance(p, n);
    if t < NUM_TAGS {
      assert UseNow(p, r) == UseNow(p, n).(held := UseNow(p, n).held + {t});
      SameClient(p, n, r, FlashClient.Step(ClientOf(p, n), FlashClient.TakeTag(k)));
    }
  }

  lemma FillIsClient(p: Plan, n: Node)
    requires Booked(p, n) && n.op < Ops(p, n.phase) && n.pc.Acquired? && FlashClient.Booked(ClientOf(p, n))
    ensures ClientOf(p, Advance(p, n)) ==
            if KindOf(n.phase) == Write && p.check
            then FlashClient.Step(ClientOf(p, n), FlashClient.Fill(n.pc.tag, GoldenPage(Target(p, n.op))))
            else ClientOf(p, n)
  {
    assert UseNow(p, Advance(p, n)) == UseNow(p, n);
  }

  lemma LockIsClient(p: Plan, n: Node)
    requires Booked(p, n) && n.op < Ops(p, n.phase) && n.pc.Filled? && FlashClient.Booked(ClientOf(p, n))
    ensures ClientOf(p, Advance(p, n)) ==
            FlashClient.Step(ClientOf(p, n), FlashClient.IssueRequest(KindOf(n.phase), n.pc.tag, Target(p, n.op)))
  {
    var t, u := n.pc.tag, UseNow(p, n);
    assert UseNow(p, Advance(p, n)) ==
      FlashClient.Use(u.held - {t}, u.flying[t := FlashClient.Request(Target(p, n.op), Requested, false)]);
  }

  lemma SendIsNothing(p: Plan, n: Node)
    requires Booked(p, n) && n.op < Ops(p, n.phase) && n.pc.Locked?
    ensures ClientOf(p, Advance(p, n)) == ClientOf(p, n)
  {
    assert InFlight(p, Advance(p, n)) == InFlight(p, n);
  }

  lemma BarrierIsNothing(p: Plan, n: Node)
    requires Booked(p, n) && n.op == Ops(p, n.phase)
    ensures ClientOf(p, Advance(p, n)) == ClientOf(p, n)
  {
    if LaneOf(n.host, KindOf(n.phase)).inFlight == 0 {
      BarrierHolds(p, n);
      assert UseNow(p, n) == NONE && UseNow(p, Advance(p, n)) == NONE;
    }
  }

  /** What is in flight after a request has moved on, and after it has completed. */
  lemma FlightMoves(p: Plan, n: Node, r: Node, t: nat, f: Flight)
    requires Placed(p, n) && |p.blocks| > 0 && t in n.flights && f.op == n.flights[t].op
    requires r.flights == n.flights[t := f] && r.pc == n.pc && r.op == n.op
    ensures t in InFlight(p, n) && InFlight(p, n)[t].bad == n.flights[t].bad
    ensures InFlight(p, r) == InFlight(p, n)[t := InFlight(p, n)[t].(stage := f.stage, bad := f.bad)]
  {
  }

  lemma FlightEnds(p: Plan, n: Node, r: Node, t: nat)
    requires Placed(p, n) && |p.blocks| > 0 && t in n.flights
    requires r.flights == n.flights - {t} && r.pc == n.pc && r.op == n.op
    ensures t in InFlight(p, n) && InFlight(p, n)[t].bad == n.flights[t].bad
    ensures InFlight(p, r) == InFlight(p, n) - {t}
  {
  }

  lemma PerformIsClient(p: Plan, n: Node, t: nat, page: seq<nat>, bad: bool)
    requires Booked(p, n) && MayTouch(n, t) && |page| == PAGE_WORDS && FlashClient.Booked(ClientOf(p, n))
    ensures ClientOf(p, Touch(n, t, page, bad)) ==
            FlashClient.Step(ClientOf(p, n), FlashClient.Perform(KindOf(n.phase), t, page, bad))
  {
    var r := Touch(n, t, page, bad);
    FlightMoves(p, n, r, t, r.flights[t]);
    SameClient(p, n, r, FlashClient.Step(ClientOf(p, n), FlashClient.Perform(KindOf(n.phase), t, page, bad)));
  }

  lemma CheckIsClient(p: Plan, n: Node, t: nat)
    requires Booked(p, n) && MayCheck(n, t) && FlashClient.Booked(ClientOf(p, n))
    ensures ClientOf(p, Check(p, n, t)) == FlashClient.Step(ClientOf(p, n), FlashClient.DataCheck(p.check, t))
  {
    var r := Check(p, n, t);
    FlightMoves(p, n, r, t, r.flights[t]);
    SameClient(p, n, r, FlashClient.Step(ClientOf(p, n), FlashClient.DataCheck(p.check, t)));
  }

  lemma FinishIsClient(p: Plan, n: Node, t: nat)
    requires Booked(p, n) && t in n.flights && MayFinish(n, t) && FlashClient.Booked(ClientOf(p, n))
    ensures ClientOf(p, Finish(n, t)) == FlashClient.Step(ClientOf(p, n), FlashClient.Callback(KindOf(n.phase), t))
  {
    var r := Finish(n, t);
    FlightEnds(p, n, r, t);
    SameClient(p, n, r, FlashClient.Step(ClientOf(p, n), FlashClient.Callback(KindOf(n.phase), t)));
  }

  /** Every step of a host is the step of the client it is that `Does` names, or changes nothing the client
      sees. */
  lemma StepIsClientStep(p: Plan, n: Node, e: Event)
    requires Booked(p, n)
    requires match e
             case Main(_) => Running(p, n)
             case Fabric(_, t, page, _) => MayTouch(n, t) && |page| == PAGE_WORDS
             case DataCheck(_, t) => MayCheck(n, t)
             case Callback(_, t) => t in n.flights && MayFinish(n, t)
    ensures FlashClient.Booked(ClientOf(p, n))
    ensures var d := Does(p, n, e);
            ClientOf(p, NodeStep(p, n, e)) ==
            if d == [] then ClientOf(p, n) else FlashClient.Step(ClientOf(p, n), d[0])
  {
    ClientBooked(p, n);
    match e
    case Main(_) =>
      if n.op == Ops(p, n.phase) {
        BarrierIsNothing(p, n);
      } else {
        match n.pc
        case Ready => TakeIsClient(p, n);
        case Acquired(_) => FillIsClient(p, n);
        case Filled(_) => LockIsClient(p, n);
        case Locked(_) => SendIsNothing(p, n);
      }
    case Fabric(_, t, page, bad) => PerformIsClient(p, n, t, page, bad);
    case DataCheck(_, t) => CheckIsClient(p, n, t);
    case Callback(_, t) => FinishIsClient(p, n, t);
  }
}
