/**
 The request interface of projects/flash_multinode/flash.cpp in the hands of
 any client: erases, writes and reads mixed freely, by any number of threads
 that use only tags they have been given.
 */
module FlashClient {
  import opened FlashHost

  /** A request on its way; `bad` is the outcome of an erase the device has performed. */
  datatype Request = Request(addr: Addr, stage: Stage, bad: bool)

  /** The tags of one kind that clients hold, and the requests issued and not completed. */
  datatype Use = Use(held: set<nat>, flying: map<nat, Request>)

  datatype System = System(host: Host, erase: Use, write: Use, read: Use)

  function UseOf(s: System, k: Kind): Use {
    match k
    case Erase => s.erase
    case Write => s.write
    case Read => s.read
  }

  function WithUse(s: System, k: Kind, u: Use): System {
    match k
    case Erase => s.(erase := u)
    case Write => s.(write := u)
    case Read => s.(read := u)
  }

  /** A client takes a tag, fills a write buffer it holds, or issues a request; the device acts on one; the
      callback thread checks a page read, or completes a request. */
  datatype Event =
    | TakeTag(kind: Kind)
    | Fill(tag: nat, page: seq<nat>)
    | IssueRequest(kind: Kind, tag: nat, addr: Addr)
    | Perform(kind: Kind, tag: nat, page: seq<nat>, bad: bool)
    | DataCheck(checkData: bool, tag: nat)
    | Callback(kind: Kind, tag: nat)

  /** Clients keep to the tags they hold, and the device answers each request once. */
  predicate Possible(s: System, e: Event) {
    (e.TakeTag? || e.tag < NUM_TAGS) &&
    match e
    case TakeTag(_) => true
    case Fill(t, page) => t in s.write.held && |page| == PAGE_WORDS
    case IssueRequest(k, t, _) => t in UseOf(s, k).held
    case Perform(k, t, page, _) => AtStage(s, k, t, Requested) && |page| == PAGE_WORDS
    case DataCheck(_, t) => AtStage(s, Read, t, Performed)
    case Callback(k, t) => AtStage(s, k, t, if k == Read then Checked else Performed)
  }

  predicate AtStage(s: System, k: Kind, t: nat, stage: Stage) {
    t in UseOf(s, k).flying && UseOf(s, k).flying[t].stage == stage
  }

  /** A tag is busy exactly when it is held or in flight, never both; the table has the address of an erase
      or read in flight. */
  ghost predicate TagBooked(l: Lane, u: Use, k: Kind, t: nat)
    requires t < |l.tags|
  {
    && (l.tags[t].busy <==> t in u.held || t in u.flying)
    && !(t in u.held && t in u.flying)
    && (t in u.flying && k != Write ==> l.tags[t].addr == u.flying[t].addr)
  }

  /** The tags and the counter of one kind. */
  ghost predicate LaneBooked(l: Lane, u: Use, k: Kind) {
    && |l.tags| == NUM_TAGS
    && l.inFlight == |u.flying.Keys|
    && (forall t <- u.held + u.flying.Keys :: t < NUM_TAGS)
    && forall t {:trigger TagBooked(l, u, k, t)} :: 0 <= t < NUM_TAGS ==> TagBooked(l, u, k, t)
  }

  ghost predicate Booked(s: System) {
    Formed(s.host) && forall k :: LaneBooked(LaneOf(s.host, k), UseOf(s, k), k)
  }

  ghost function Step(s: System, e: Event): System
    requires Booked(s)
  {
    if !Possible(s, e) then s else
    match e
    case TakeTag(k) =>
      var t := FirstIdle(LaneOf(s.host, k).tags, NUM_TAGS);
      if t == NUM_TAGS then s
      else WithUse(s.(host := Acquire(s.host, k, t)), k, UseOf(s, k).(held := UseOf(s, k).held + {t}))
    case Fill(t, page) => s.(host := s.host.(writeBuffers := s.host.writeBuffers[t := page]))
    case IssueRequest(k, t, a) =>
      var u := UseOf(s, k);
      WithUse(s.(host := Issue(s.host, k, a, t)), k,
              Use(u.held - {t}, u.flying[t := Request(a, Requested, false)]))
    case Perform(k, t, page, bad) =>
      var h := if k == Read then s.host.(readBuffers := s.host.readBuffers[t := page]) else s.host;
      Moved(s.(host := h), k, t, Performed, bad)
    case DataCheck(checkData, t) =>
      Moved(s.(host := CheckRead(s.host, checkData, t)), Read, t, Checked, s.read.flying[t].bad)
    case Callback(k, t) =>
      var u := UseOf(s, k);
      WithUse(s.(host := Complete(s.host, k, t, u.flying[t].bad)), k, u.(flying := u.flying - {t}))
  }

  function Moved(s: System, k: Kind, t: nat, stage: Stage, bad: bool): System
    requires t in UseOf(s, k).flying
  {
    var u := UseOf(s, k);
    WithUse(s, k, u.(flying := u.flying[t := u.flying[t].(stage := stage, bad := bad)]))
  }

  // ----- the books of one kind -----

  lemma TakeBooked(l: Lane, u: Use, k: Kind, t: nat)
    requires LaneBooked(l, u, k) && t < NUM_TAGS && !l.tags[t].busy
    ensures LaneBooked(SetBusy(l, t, true), u.(held := u.held + {t}), k)
  {
    assert TagBooked(l, u, k, t);
    SameElsewhere(l, u, k, t, SetBusy(l, t, true), u.(held := u.held + {t}));
  }

  lemma IssueBooked(l: Lane, u: Use, k: Kind, t: nat, a: Addr, r: Lane)
    requires LaneBooked(l, u, k) && t in u.held && t < NUM_TAGS && r.inFlight == l.inFlight + 1
    requires r.tags == if k == Write then l.tags else l.tags[t := l.tags[t].(addr := a)]
    ensures LaneBooked(r, Use(u.held - {t}, u.flying[t := Request(a, Requested, false)]), k)
  {
    assert TagBooked(l, u, k, t);
    var v := Use(u.held - {t}, u.flying[t := Request(a, Requested, false)]);
    assert v.flying.Keys == u.flying.Keys + {t};
    SameElsewhere(l, u, k, t, r, v);
  }

  lemma MoveBooked(l: Lane, u: Use, k: Kind, t: nat, stage: Stage, bad: bool)
    requires LaneBooked(l, u, k) && t in u.flying
    ensures LaneBooked(l, u.(flying := u.flying[t := u.flying[t].(stage := stage, bad := bad)]), k)
  {
    assert t in u.held + u.flying.Keys;
    assert TagBooked(l, u, k, t);
    var v := u.(flying := u.flying[t := u.flying[t].(stage := stage, bad := bad)]);
    assert v.flying.Keys == u.flying.Keys;
    SameElsewhere(l, u, k, t, l, v);
  }

  lemma CompleteBooked(l: Lane, u: Use, k: Kind, t: nat)
    requires LaneBooked(l, u, k) && t in u.flying
    ensures t < NUM_TAGS && l.inFlight > 0 && l.tags[t].busy
    ensures LaneBooked(SetBusy(l.(inFlight := l.inFlight - 1), t, false), u.(flying := u.flying - {t}), k)
  {
    assert t in u.held + u.flying.Keys;
    assert TagBooked(l, u, k, t);
    var v := u.(flying := u.flying - {t});
    assert v.flying.Keys == u.flying.Keys - {t};
    SameElsewhere(l, u, k, t, SetBusy(l.(inFlight := l.inFlight - 1), t, false), v);
  }

  /** What changes nothing but one tag leaves the books of the others right. */
  lemma SameElsewhere(l: Lane, u: Use, k: Kind, t: nat, r: Lane, v: Use)
    requires LaneBooked(l, u, k) && t < NUM_TAGS && |r.tags| == NUM_TAGS
    requires forall x: nat :: x != t ==> (x in v.held <==> x in u.held) && (x in v.flying <==> x in u.flying)
    requires forall x: nat :: x != t && x in u.flying ==> v.flying[x].addr == u.flying[x].addr
    requires forall x: nat :: x < NUM_TAGS && x != t ==> r.tags[x] == l.tags[x]
    ensures forall x {:trigger TagBooked(r, v, k, x)} :: 0 <= x < NUM_TAGS && x != t ==> TagBooked(r, v, k, x)
    ensures forall x <- v.held + v.flying.Keys :: x < NUM_TAGS
  {
    forall x | 0 <= x < NUM_TAGS && x != t
      ensures TagBooked(r, v, k, x)
    {
      assert TagBooked(l, u, k, x);
    }
    forall x | x in v.held + v.flying.Keys
      ensures x < NUM_TAGS
    {
      assert x != t ==> x in u.held + u.flying.Keys;
    }
  }

  // ----- every run -----

  /** A step on one kind leaves the books of the others alone. */
  lemma OneKind(s: System, r: System, k: Kind)
    requires Booked(s) && Formed(r.host) && LaneBooked(LaneOf(r.host, k), UseOf(r, k), k)
    requires forall j :: j != k ==> LaneOf(r.host, j) == LaneOf(s.host, j) && UseOf(r, j) == UseOf(s, j)
    ensures Booked(r)
  {
    forall j
      ensures LaneBooked(LaneOf(r.host, j), UseOf(r, j), j)
    {
      assert LaneBooked(LaneOf(s.host, j), UseOf(s, j), j);
    }
  }

  lemma TakeKeeps(s: System, k: Kind)
    requires Booked(s)
    ensures Booked(Step(s, TakeTag(k)))
  {
    var l, t := LaneOf(s.host, k), FirstIdle(LaneOf(s.host, k).tags, NUM_TAGS);
    if t < NUM_TAGS {
      TakeBooked(l, UseOf(s, k), k, t);
      OneKind(s, Step(s, TakeTag(k)), k);
    }
  }

  lemma IssueKeeps(s: System, k: Kind, t: nat, a: Addr)
    requires Booked(s) && t in UseOf(s, k).held && t < NUM_TAGS
    ensures Booked(Step(s, IssueRequest(k, t, a)))
  {
    assert LaneBooked(LaneOf(s.host, k), UseOf(s, k), k);
    IssueBooked(LaneOf(s.host, k), UseOf(s, k), k, t, a, LaneOf(Issue(s.host, k, a, t), k));
    OneKind(s, Step(s, IssueRequest(k, t, a)), k);
  }

  lemma MoveKeeps(s: System, h: Host, k: Kind, t: nat, stage: Stage, bad: bool)
    requires Booked(s) && t in UseOf(s, k).flying && Formed(h)
    requires forall j :: LaneOf(h, j) == LaneOf(s.host, j)
    ensures Booked(Moved(s.(host := h), k, t, stage, bad))
  {
    MoveBooked(LaneOf(s.host, k), UseOf(s, k), k, t, stage, bad);
    OneKind(s, Moved(s.(host := h), k, t, stage, bad), k);
  }

  lemma CallbackKeeps(s: System, k: Kind, t: nat, bad: bool)
    requires Booked(s) && t in UseOf(s, k).flying && t < NUM_TAGS
    ensures var h := Complete(s.host, k, t, bad);
            && h.errors == s.host.errors && h.testPass == s.host.testPass
            && Booked(WithUse(s.(host := h), k, UseOf(s, k).(flying := UseOf(s, k).flying - {t})))
  {
    var h := Complete(s.host, k, t, bad);
    CompleteBooked(LaneOf(s.host, k), UseOf(s, k), k, t);
    OneKind(s, WithUse(s.(host := h), k, UseOf(s, k).(flying := UseOf(s, k).flying - {t})), k);
  }

  /** Every step keeps the books, takes no error branch, and changes the verdict only by a data check. */
  lemma StepBooked(s: System, e: Event)
    requires Booked(s)
    ensures Booked(Step(s, e))
    ensures Step(s, e).host.errors == s.host.errors
    ensures Step(s, e).host.testPass == s.host.testPass || (e.DataCheck? && !Step(s, e).host.testPass)
  {
    if Possible(s, e) {
      match e
      case TakeTag(k) => TakeKeeps(s, k);
      case Fill(_, _) => FillKeeps(s, e);
      case IssueRequest(k, t, a) => IssueKeeps(s, k, t, a);
      case Perform(k, t, page, bad) =>
        var h := if k == Read then s.host.(readBuffers := s.host.readBuffers[t := page]) else s.host;
        MoveKeeps(s, h, k, t, Performed, bad);
      case DataCheck(checkData, t) =>
        MoveKeeps(s, CheckRead(s.host, checkData, t), Read, t, Checked, s.read.flying[t].bad);
      case Callback(k, t) => CallbackKeeps(s, k, t, UseOf(s, k).flying[t].bad);
    }
  }

  lemma FillKeeps(s: System, e: Event)
    requires Booked(s) && e.Fill? && Possible(s, e)
    ensures Booked(Step(s, e))
  {
    var h := s.host.(writeBuffers := s.host.writeBuffers[e.tag := e.page]);
    assert LaneBooked(LaneOf(h, Write), s.write, Write) by {
      assert LaneBooked(LaneOf(s.host, Write), UseOf(s, Write), Write);
    }
    OneKind(s, s.(host := h), Write);
  }

  /** Every list of events is a run; states whose books are wrong do not occur, and go nowhere. */
  ghost function Run(s: System, es: seq<Event>): System
    decreases |es|
  {
    if es == [] || !Booked(s) then s else Run(Step(s, es[0]), es[1..])
  }

  /** Whatever clients ask for and whatever the device answers: in every run each counter is the number of
      requests of its kind issued and not completed, the busy tags of a kind are the disjoint union of those
      held and those in flight, and no completion finds its counter at zero or its tag idle. */
  lemma {:induction false} RunBooked(s: System, es: seq<Event>)
    requires Booked(s)
    ensures Booked(Run(s, es)) && Run(s, es).host.errors == s.host.errors
    ensures Run(s, es).host.testPass ==> s.host.testPass
    decreases |es|
  {
    if es != [] {
      StepBooked(s, es[0]);
      RunBooked(Step(s, es[0]), es[1..]);
    }
  }

  /** A host whose tags are idle and whose counters are zero starts with its books right. */
  lemma StartBooked(h: Host)
    requires Formed(h)
    requires forall k :: LaneOf(h, k).inFlight == 0 && forall t :: 0 <= t < NUM_TAGS ==> !LaneOf(h, k).tags[t].busy
    ensures Booked(System(h, Use({}, map[]), Use({}, map[]), Use({}, map[])))
  {
    var s := System(h, Use({}, map[]), Use({}, map[]), Use({}, map[]));
    forall k
      ensures LaneBooked(LaneOf(s.host, k), UseOf(s, k), k)
    {
    }
  }

  /** No step but the device's own changes what belongs to a request in flight: the address it was issued
      for, which for an erase or read is the one in its table, and its buffer. */
  lemma OthersUndisturbed(s: System, e: Event, k: Kind, t: nat, r: System)
    requires Booked(s) && r == Step(s, e) && Booked(r)
    requires t in UseOf(s, k).flying && t in UseOf(r, k).flying && t < NUM_TAGS
    ensures UseOf(r, k).flying[t].addr == UseOf(s, k).flying[t].addr
    ensures k != Write ==> LaneOf(r.host, k).tags[t].addr == UseOf(s, k).flying[t].addr
    ensures k == Write ==> r.host.writeBuffers[t] == s.host.writeBuffers[t]
    ensures k == Read && !(e.Perform? && e.tag == t) ==> r.host.readBuffers[t] == s.host.readBuffers[t]
  {
    assert LaneBooked(LaneOf(s.host, k), UseOf(s, k), k) && TagBooked(LaneOf(s.host, k), UseOf(s, k), k, t);
    assert LaneBooked(LaneOf(r.host, k), UseOf(r, k), k) && TagBooked(LaneOf(r.host, k), UseOf(r, k), k, t);
  }
}
