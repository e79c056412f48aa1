/**
 Why the tests of projects/flash_multinode pass on a well-behaved fabric: the
 recorded status of every block agrees with what the block holds, from the
 moment its request has completed.
 */
module FlashVerdict {
  import opened FlashHost
  import opened FlashCluster

  function At(flash: map<Addr, Content>, a: Addr): Content {
    if a in flash then flash[a] else Unknown
  }

  /** What a request leaves in its block: pages can be programmed only into an erased block. */
  function Effect(k: Kind, c: Content, buffer: seq<nat>, bad: bool): Content {
    match k
    case Erase => if bad then Broken else Blank
    case Write => if c.Blank? then Programmed(buffer) else if c.Broken? then Broken else Unknown
    case Read => c
  }

  /** What a read may return: the valid words of a programmed page, all ones or zero at the start of
      an erased one, and anything at all from any other block. */
  ghost predicate Readable(c: Content, page: seq<nat>) {
    && |page| == PAGE_WORDS
    && match c
       case Programmed(q) => |q| == PAGE_WORDS && page[..VALID_WORDS] == q[..VALID_WORDS]
       case Blank => page[0] == ALL_ONES || page[0] == 0
       case Broken => true
       case Unknown => true
  }

  /** The recorded status agrees with the block. */
  ghost predicate Settled(p: Plan, n: Node, flash: map<Addr, Content>, a: Addr) {
    match StatusOf(n.host, a)
    case ERASED => At(flash, a).Blank?
    case WRITTEN =>
      && At(flash, a).Programmed? && |At(flash, a).page| == PAGE_WORDS
      && (p.check ==> HoldsGolden(a, At(flash, a).page, PAGE_WORDS))
    case BAD => true
    case UNINIT => false
  }

  predicate Issued(n: Node, j: nat) {
    j < n.op || (n.pc.Locked? && j == n.op)
  }

  predicate Underway(n: Node, j: nat) {
    (n.pc.Locked? && j == n.op) || exists t <- n.flights :: n.flights[t].op == j
  }

  predicate Known(s: Status, written: bool) {
    s == BAD || s == if written then WRITTEN else ERASED
  }

  /** What the test thread's position says about one of its blocks. */
  ghost predicate BlockInv(p: Plan, n: Node, flash: map<Addr, Content>, j: nat)
    requires j < |p.blocks|
  {
    var a, s := p.blocks[j], StatusOf(n.host, p.blocks[j]);
    if n.phase == 0 && !Issued(n, j) then n.rep > 0 ==> Known(s, true) && Settled(p, n, flash, a)
    else if n.phase == 0 then Known(s, false) && (Underway(n, j) || Settled(p, n, flash, a))
    else if n.phase == 1 then Known(s, false) && Settled(p, n, flash, a)
    else if n.phase == 2 && !Issued(n, j) then Known(s, false) && Settled(p, n, flash, a)
    else if n.phase == 2 then Known(s, true) && (Underway(n, j) || Settled(p, n, flash, a))
    else Known(s, true) && Settled(p, n, flash, a)
  }

  /** What is known while a request is in flight: its buffer is not touched between issue and
      completion, and once the fabric has acted the block is as its status will say. */
  ghost predicate FlightInv(p: Plan, n: Node, flash: map<Addr, Content>, t: nat)
    requires Formed(n.host) && t < NUM_TAGS && t in n.flights && |p.blocks| > 0
  {
    var f := n.flights[t];
    var a := Target(p, f.op);
    match KindOf(n.phase)
    case Erase => f.stage == Performed && !f.bad ==> At(flash, a).Blank?
    case Write => WriteInv(p, n, flash, a, t, f.stage == Performed)
    case Read => f.stage == Performed ==> Readable(At(flash, a), n.host.readBuffers[t])
  }

  ghost predicate WriteInv(p: Plan, n: Node, flash: map<Addr, Content>, a: Addr, t: nat, performed: bool)
    requires Formed(n.host) && t < NUM_TAGS
  {
    if performed then Settled(p, n, flash, a)
    else
      && (StatusOf(n.host, a) == WRITTEN ==> At(flash, a).Blank?)
      && (p.check ==> HoldsGolden(a, n.host.writeBuffers[t], PAGE_WORDS))
  }

  ghost predicate PcInv(p: Plan, n: Node, flash: map<Addr, Content>)
    requires Formed(n.host) && |p.blocks| > 0 && (!n.pc.Ready? ==> n.pc.tag < NUM_TAGS)
  {
    KindOf(n.phase) == Write ==>
      && (n.pc.Filled? && p.check ==> HoldsGolden(Target(p, n.op), n.host.writeBuffers[n.pc.tag], PAGE_WORDS))
      && (n.pc.Locked? ==> WriteInv(p, n, flash, Target(p, n.op), n.pc.tag, false))
  }

  ghost predicate Agrees(p: Plan, n: Node, flash: map<Addr, Content>) {
    && PlanOk(p)
    && Booked(p, n)
    && PcInv(p, n, flash)
    && (forall j {:trigger BlockInv(p, n, flash, j)} :: 0 <= j < |p.blocks| ==> BlockInv(p, n, flash, j))
    && (forall t {:trigger FlightInv(p, n, flash, t)} :: t in n.flights ==> FlightInv(p, n, flash, t))
    && n.host.testPass && n.host.errors == 0
  }

  lemma RemainderOfSmall(i: nat, n: nat)
    requires i < n
    ensures i % n == i
  {
  }

  /** Operations of an erase or write phase are on different blocks. */
  lemma TargetsDiffer(p: Plan, i: nat, j: nat)
    requires PlanOk(p) && i < |p.blocks| && j < |p.blocks| && i != j
    ensures Target(p, i) == p.blocks[i] && Target(p, i) != Target(p, j)
  {
    RemainderOfSmall(i, |p.blocks|);
    RemainderOfSmall(j, |p.blocks|);
  }

  lemma AcquireAgrees(p: Plan, n: Node, flash: map<Addr, Content>)
    requires Agrees(p, n, flash) && Running(p, n) && n.op < Ops(p, n.phase)
    requires n.pc.Ready? || n.pc.Acquired?
    ensures Agrees(p, Advance(p, n), flash)
  {
    AdvanceBooked(p, n);
    var r := Advance(p, n);
    forall j: nat | j < |p.blocks|
      ensures BlockInv(p, r, flash, j)
    {
      assert BlockInv(p, n, flash, j);
    }
    forall t | t in r.flights
      ensures FlightInv(p, r, flash, t)
    {
      assert FlightInv(p, n, flash, t);
    }
  }

  /** Issuing a request changes the recorded status of its own block only. */
  lemma IssueStatus(h: Host, k: Kind, a: Addr, t: nat, b: Addr)
    requires FlashHost.Formed(h) && t < NUM_TAGS
    ensures StatusOf(Issue(h, k, a, t), b) ==
            if b != a || k == Read then StatusOf(h, b)
            else if k == Erase then ERASED
            else if StatusOf(h, b) == BAD then BAD else WRITTEN
    ensures Issue(h, k, a, t).writeBuffers == h.writeBuffers && Issue(h, k, a, t).readBuffers == h.readBuffers
    ensures Issue(h, k, a, t).testPass == h.testPass && Issue(h, k, a, t).errors == h.errors
  {
  }

  lemma LockKeepsBlock(p: Plan, n: Node, flash: map<Addr, Content>, r: Node, j: nat)
    requires PlanOk(p) && Placed(p, n) && Running(p, n) && n.op < Ops(p, n.phase) && n.pc.Filled?
    requires r == Advance(p, n) && j < |p.blocks| && BlockInv(p, n, flash, j)
    ensures BlockInv(p, r, flash, j)
  {
    RemainderOfSmall(j, |p.blocks|);
    IssueStatus(n.host, KindOf(n.phase), Target(p, n.op), n.pc.tag, p.blocks[j]);
    if KindOf(n.phase) != Read && j != n.op {
      TargetsDiffer(p, j, n.op);
    }
  }

  lemma LockKeepsFlight(p: Plan, n: Node, flash: map<Addr, Content>, r: Node, t: nat)
    requires PlanOk(p) && Placed(p, n) && Running(p, n) && n.op < Ops(p, n.phase) && n.pc.Filled?
    requires r == Advance(p, n) && t in n.flights && FlightInv(p, n, flash, t) && Placed(p, r)
    ensures FlightInv(p, r, flash, t)
  {
    var b := Target(p, n.flights[t].op);
    IssueStatus(n.host, KindOf(n.phase), Target(p, n.op), n.pc.tag, b);
    if KindOf(n.phase) != Read {
      TargetsDiffer(p, n.flights[t].op, n.op);
    }
  }

  lemma LockAgrees(p: Plan, n: Node, flash: map<Addr, Content>)
    requires Agrees(p, n, flash) && Running(p, n) && n.op < Ops(p, n.phase) && n.pc.Filled?
    ensures Agrees(p, Advance(p, n), flash)
  {
    AdvanceBooked(p, n);
    var r := Advance(p, n);
    IssueStatus(n.host, KindOf(n.phase), Target(p, n.op), n.pc.tag, Target(p, n.op));
    if n.phase == 2 {
      RemainderOfSmall(n.op, |p.blocks|);
      assert BlockInv(p, n, flash, n.op);
    }
    forall j: nat | j < |p.blocks|
      ensures BlockInv(p, r, flash, j)
    {
      assert BlockInv(p, n, flash, j);
      LockKeepsBlock(p, n, flash, r, j);
    }
    forall t | t in r.flights
      ensures FlightInv(p, r, flash, t)
    {
      assert FlightInv(p, n, flash, t);
      LockKeepsFlight(p, n, flash, r, t);
    }
  }

  lemma SendAgrees(p: Plan, n: Node, flash: map<Addr, Content>)
    requires Agrees(p, n, flash) && Running(p, n) && n.op < Ops(p, n.phase) && n.pc.Locked?
    ensures Agrees(p, Advance(p, n), flash)
  {
    AdvanceBooked(p, n);
    var r := Advance(p, n);
    forall j: nat | j < |p.blocks|
      ensures BlockInv(p, r, flash, j)
    {
      assert BlockInv(p, n, flash, j);
      assert j == n.op ==> r.flights[n.pc.tag].op == j;
      if t :| t in n.flights && n.flights[t].op == j {
        assert r.flights[t].op == j;
      }
    }
    forall t | t in r.flights
      ensures FlightInv(p, r, flash, t)
    {
      assert t in n.flights ==> FlightInv(p, n, flash, t);
    }
  }

  lemma BarrierAgrees(p: Plan, n: Node, flash: map<Addr, Content>)
    requires Agrees(p, n, flash) && Running(p, n) && n.op == Ops(p, n.phase)
    ensures Agrees(p, Advance(p, n), flash)
  {
    AdvanceBooked(p, n);
    var r := Advance(p, n);
    if LaneOf(n.host, KindOf(n.phase)).inFlight == 0 {
      BarrierHolds(p, n);
      forall j: nat | j < |p.blocks|
        ensures BlockInv(p, r, flash, j)
      {
        assert BlockInv(p, n, flash, j);
        assert !Underway(n, j);
      }
    }
  }

  lemma AdvanceAgrees(p: Plan, n: Node, flash: map<Addr, Content>)
    requires Agrees(p, n, flash) && Running(p, n)
    ensures Agrees(p, Advance(p, n), flash)
  {
    if n.op == Ops(p, n.phase) {
      BarrierAgrees(p, n, flash);
    } else if n.pc.Filled? {
      LockAgrees(p, n, flash);
    } else if n.pc.Locked? {
      SendAgrees(p, n, flash);
    } else {
      AcquireAgrees(p, n, flash);
    }
  }

  // ----- the fabric and the callbacks -----

  /** The flash after the fabric has acted on the request of tag `t`. */
  function Touched(p: Plan, n: Node, flash: map<Addr, Content>, t: nat, bad: bool): map<Addr, Content>
    requires FlashHost.Formed(n.host) && t < NUM_TAGS && t in n.flights && |p.blocks| > 0
  {
    var a := Target(p, n.flights[t].op);
    if KindOf(n.phase) == Read then flash
    else flash[a := Effect(KindOf(n.phase), At(flash, a), n.host.writeBuffers[t], bad)]
  }

  predicate MayTouch(n: Node, t: nat) {
    t in n.flights && n.flights[t].stage == Requested
  }

  /** The page a well-behaved fabric may return for the request, if it is a read. */
  ghost predicate FabricObeys(p: Plan, n: Node, flash: map<Addr, Content>, t: nat, page: seq<nat>)
    requires t in n.flights && |p.blocks| > 0
  {
    |page| == PAGE_WORDS && (KindOf(n.phase) == Read ==> Readable(At(flash, Target(p, n.flights[t].op)), page))
  }

  lemma TouchKeepsBlock(p: Plan, n: Node, flash: map<Addr, Content>, t: nat, page: seq<nat>, bad: bool, j: nat)
    requires PlanOk(p) && Booked(p, n) && MayTouch(n, t) && j < |p.blocks| && BlockInv(p, n, flash, j)
    ensures BlockInv(p, Touch(n, t, page, bad), Touched(p, n, flash, t, bad), j)
  {
    var r := Touch(n, t, page, bad);
    if KindOf(n.phase) != Read {
      if n.flights[t].op == j {
        assert Issued(n, j) && r.flights[t].op == j;
      } else {
        TargetsDiffer(p, n.flights[t].op, j);
        if u :| u in n.flights && n.flights[u].op == j {
          assert r.flights[u].op == j;
        }
      }
    }
  }

  lemma TouchKeepsFlight(p: Plan, n: Node, flash: map<Addr, Content>, t: nat, page: seq<nat>, bad: bool, u: nat)
    requires PlanOk(p) && Placed(p, n) && MayTouch(n, t) && FabricObeys(p, n, flash, t, page)
    requires u in n.flights && FlightInv(p, n, flash, u) && FlightInv(p, n, flash, t)
    requires u != t ==> n.flights[u].op != n.flights[t].op
    requires n.phase == 2 ==> Known(StatusOf(n.host, Target(p, n.flights[t].op)), true)
    requires Placed(p, Touch(n, t, page, bad))
    ensures FlightInv(p, Touch(n, t, page, bad), Touched(p, n, flash, t, bad), u)
  {
    if KindOf(n.phase) != Read && u != t {
      TargetsDiffer(p, n.flights[u].op, n.flights[t].op);
    }
  }

  lemma TouchKeepsPc(p: Plan, n: Node, flash: map<Addr, Content>, t: nat, page: seq<nat>, bad: bool)
    requires PlanOk(p) && Placed(p, n) && MayTouch(n, t) && |page| == PAGE_WORDS && PcInv(p, n, flash)
    requires Placed(p, Touch(n, t, page, bad))
    ensures PcInv(p, Touch(n, t, page, bad), Touched(p, n, flash, t, bad))
  {
    if KindOf(n.phase) == Write && n.pc.Locked? {
      TargetsDiffer(p, n.op, n.flights[t].op);
    }
  }

  lemma KnownWhileWriting(p: Plan, n: Node, flash: map<Addr, Content>, t: nat)
    requires PlanOk(p) && Placed(p, n) && t in n.flights && n.phase == 2
    requires BlockInv(p, n, flash, n.flights[t].op)
    ensures Known(StatusOf(n.host, Target(p, n.flights[t].op)), true)
  {
    RemainderOfSmall(n.flights[t].op, |p.blocks|);
  }

  lemma TouchKeepsFlights(p: Plan, n: Node, flash: map<Addr, Content>, t: nat, page: seq<nat>, bad: bool, r: Node)
    requires PlanOk(p) && Placed(p, n) && MayTouch(n, t) && EntryRight(p, n, t)
    requires FabricObeys(p, n, flash, t, page)
    requires n.phase == 2 ==> Known(StatusOf(n.host, Target(p, n.flights[t].op)), true)
    requires forall u {:trigger FlightInv(p, n, flash, u)} :: u in n.flights ==> FlightInv(p, n, flash, u)
    requires r == Touch(n, t, page, bad) && Placed(p, r)
    ensures forall u :: u in r.flights ==> FlightInv(p, r, Touched(p, n, flash, t, bad), u)
  {
    assert FlightInv(p, n, flash, t);
    forall u | u in r.flights
      ensures FlightInv(p, r, Touched(p, n, flash, t, bad), u)
    {
      assert FlightInv(p, n, flash, u);
      TouchKeepsFlight(p, n, flash, t, page, bad, u);
    }
  }

  lemma TouchAgrees(p: Plan, n: Node, flash: map<Addr, Content>, t: nat, page: seq<nat>, bad: bool)
    requires Agrees(p, n, flash) && MayTouch(n, t) && FabricObeys(p, n, flash, t, page)
    ensures Agrees(p, Touch(n, t, page, bad), Touched(p, n, flash, t, bad))
  {
    TouchBooked(p, n, t, page, bad);
    var r, flash' := Touch(n, t, page, bad), Touched(p, n, flash, t, bad);
    TouchKeepsPc(p, n, flash, t, page, bad);
    assert BookedAt(p, n, t);
    if n.phase == 2 {
      assert BlockInv(p, n, flash, n.flights[t].op);
      KnownWhileWriting(p, n, flash, t);
    }
    TouchKeepsFlights(p, n, flash, t, page, bad, r);
    forall j: nat | j < |p.blocks|
      ensures BlockInv(p, r, flash', j)
    {
      assert BlockInv(p, n, flash, j);
      TouchKeepsBlock(p, n, flash, t, page, bad, j);
    }
  }

  predicate MayCheck(n: Node, t: nat) {
    t in n.flights && KindOf(n.phase) == Read && n.flights[t].stage == Performed
  }

  /** The data check of a page a well-behaved fabric returned always passes. */
  lemma CheckPasses(p: Plan, n: Node, flash: map<Addr, Content>, t: nat)
    requires PlanOk(p) && Placed(p, n) && MayCheck(n, t) && FlightInv(p, n, flash, t)
    requires EntryRight(p, n, t)
    requires BlockInv(p, n, flash, n.flights[t].op % |p.blocks|)
    ensures Check(p, n, t).host == n.host
  {
    var a, page := n.host.read.tags[t].addr, n.host.readBuffers[t];
    if p.check && StatusOf(n.host, a) == WRITTEN {
      var q := At(flash, a).page;
      forall w | 0 <= w < VALID_WORDS
        ensures page[w] == Golden(a, w)
      {
        assert page[w] == page[..VALID_WORDS][w] && q[w] == q[..VALID_WORDS][w];
      }
    }
  }

  lemma CheckAgrees(p: Plan, n: Node, flash: map<Addr, Content>, t: nat)
    requires Agrees(p, n, flash) && MayCheck(n, t)
    ensures Agrees(p, Check(p, n, t), flash)
  {
    CheckBooked(p, n, t);
    assert BookedAt(p, n, t) && FlightInv(p, n, flash, t);
    assert BlockInv(p, n, flash, n.flights[t].op % |p.blocks|);
    CheckPasses(p, n, flash, t);
    var r := Check(p, n, t);
    forall j: nat | j < |p.blocks|
      ensures BlockInv(p, r, flash, j)
    {
      assert BlockInv(p, n, flash, j);
    }
    forall u | u in r.flights
      ensures FlightInv(p, r, flash, u)
    {
      assert FlightInv(p, n, flash, u);
    }
  }

  /** A completion changes the recorded status of its own block only, and only for a failed erase. */
  lemma CompleteStatus(h: Host, k: Kind, t: nat, bad: bool, b: Addr)
    requires FlashHost.Formed(h) && t < NUM_TAGS
    ensures StatusOf(Complete(h, k, t, bad), b) ==
            if k == Erase && bad && b == h.erase.tags[t].addr then BAD else StatusOf(h, b)
    ensures Complete(h, k, t, bad).writeBuffers == h.writeBuffers
    ensures Complete(h, k, t, bad).readBuffers == h.readBuffers
  {
  }

  lemma FinishKeepsUnderway(n: Node, t: nat, j: nat)
    requires FlashHost.Formed(n.host) && t < NUM_TAGS && t in n.flights && n.flights[t].op != j && Underway(n, j)
    ensures Underway(Finish(n, t), j)
  {
    if u :| u in n.flights && n.flights[u].op == j {
      assert u in Finish(n, t).flights && Finish(n, t).flights[u].op == j;
    }
  }

  /** The block of a completed erase or write is settled ... */
  lemma FinishSettles(p: Plan, n: Node, flash: map<Addr, Content>, t: nat, j: nat)
    requires PlanOk(p) && Placed(p, n) && t in n.flights && MayFinish(n, t) && j < |p.blocks|
    requires EntryRight(p, n, t) && FlightInv(p, n, flash, t) && BlockInv(p, n, flash, j)
    requires KindOf(n.phase) != Read && n.flights[t].op == j
    ensures BlockInv(p, Finish(n, t), flash, j)
  {
    var a, k, bad := p.blocks[j], KindOf(n.phase), n.flights[t].bad;
    RemainderOfSmall(j, |p.blocks|);
    CompleteStatus(n.host, k, t, bad, a);
    assert Target(p, j) == a && Issued(n, j);
    if k == Erase {
      assert n.host.erase.tags[t].addr == a;
      assert StatusOf(n.host, a) == ERASED && !bad ==> At(flash, a).Blank?;
    } else {
      assert Settled(p, n, flash, a);
    }
    assert Settled(p, Finish(n, t), flash, a);
  }

  /** ... and every other block stays as it was. */
  lemma FinishKeepsBlock(p: Plan, n: Node, flash: map<Addr, Content>, t: nat, j: nat)
    requires PlanOk(p) && Placed(p, n) && t in n.flights && j < |p.blocks|
    requires EntryRight(p, n, t) && BlockInv(p, n, flash, j)
    requires KindOf(n.phase) == Read || n.flights[t].op != j
    ensures BlockInv(p, Finish(n, t), flash, j)
  {
    CompleteStatus(n.host, KindOf(n.phase), t, n.flights[t].bad, p.blocks[j]);
    if KindOf(n.phase) != Read {
      TargetsDiffer(p, n.flights[t].op, j);
      if Underway(n, j) {
        FinishKeepsUnderway(n, t, j);
      }
    }
  }

  lemma FinishKeepsFlight(p: Plan, n: Node, flash: map<Addr, Content>, t: nat, u: nat)
    requires PlanOk(p) && Placed(p, n) && t in n.flights && MayFinish(n, t)
    requires EntryRight(p, n, t) && u in n.flights && u != t && FlightInv(p, n, flash, u)
    requires Placed(p, Finish(n, t))
    ensures FlightInv(p, Finish(n, t), flash, u)
  {
    CompleteStatus(n.host, KindOf(n.phase), t, n.flights[t].bad, Target(p, n.flights[u].op));
    if KindOf(n.phase) != Read {
      TargetsDiffer(p, n.flights[t].op, n.flights[u].op);
    }
  }

  lemma FinishAgrees(p: Plan, n: Node, flash: map<Addr, Content>, t: nat)
    requires Agrees(p, n, flash) && t in n.flights && MayFinish(n, t)
    ensures Agrees(p, Finish(n, t), flash)
  {
    FinishBooked(p, n, t);
    assert BookedAt(p, n, t) && FlightInv(p, n, flash, t);
    var r := Finish(n, t);
    forall j: nat | j < |p.blocks|
      ensures BlockInv(p, r, flash, j)
    {
      assert BlockInv(p, n, flash, j);
      if KindOf(n.phase) != Read && n.flights[t].op == j {
        FinishSettles(p, n, flash, t, j);
      } else {
        FinishKeepsBlock(p, n, flash, t, j);
      }
    }
    forall u | u in r.flights
      ensures FlightInv(p, r, flash, u)
    {
      assert FlightInv(p, n, flash, u);
      FinishKeepsFlight(p, n, flash, t, u);
    }
  }
}
