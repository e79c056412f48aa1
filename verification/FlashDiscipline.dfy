/**
 When any client of projects/flash_multinode/flash.cpp passes its data checks:
 if its requests on one block do not overlap but for reads, it writes to erased
 blocks only and reads none it has never erased, and nobody else touches its
 blocks, a well-behaved device never makes a check fail.
 */
module FlashDiscipline {
  import opened FlashHost
  import opened FlashCluster
  import opened FlashVerdict
  import opened FlashClient

  /** The client's host, and what the blocks of the device hold. */
  datatype World = World(client: FlashClient.System, flash: map<Addr, Content>)

  /** A step of the client or its device, or of somebody else on a block of theirs. */
  datatype Act = Own(event: FlashClient.Event) | Elsewhere(addr: Addr, content: Content)

  ghost function Next(w: World, act: Act): World
    requires FlashClient.Booked(w.client)
  {
    match act
    case Elsewhere(a, c) => w.(flash := w.flash[a := c])
    case Own(e) =>
      var r := FlashClient.Step(w.client, e);
      if e.Perform? && FlashClient.Possible(w.client, e) && e.kind != Read then
        var a := UseOf(w.client, e.kind).flying[e.tag].addr;
        World(r, w.flash[a := Effect(e.kind, At(w.flash, a), w.client.host.writeBuffers[e.tag], e.bad)])
      else World(r, w.flash)
  }

  // ----- the discipline -----

  /** No erase or write of the block is in flight. */
  ghost predicate Quiet(s: FlashClient.System, a: Addr) {
    forall k, t {:trigger OnBlock(s, k, t, a)} :: OnBlock(s, k, t, a) ==> k == Read
  }

  ghost predicate OnBlock(s: FlashClient.System, k: Kind, t: nat, a: Addr) {
    t in UseOf(s, k).flying && UseOf(s, k).flying[t].addr == a
  }

  ghost predicate Unused(s: FlashClient.System, a: Addr) {
    forall k, t {:trigger OnBlock(s, k, t, a)} :: !OnBlock(s, k, t, a)
  }

  /** What the client sees to before it issues a request. */
  ghost predicate MayIssue(s: FlashClient.System, mine: set<Addr>, check: bool, k: Kind, t: nat, a: Addr)
    requires FlashHost.Formed(s.host) && t < NUM_TAGS
  {
    && a in mine
    && match k
       case Erase => Unused(s, a)
       case Write =>
         && Unused(s, a) && StatusOf(s.host, a) in {ERASED, BAD}
         && (check ==> HoldsGolden(a, s.host.writeBuffers[t], PAGE_WORDS))
       case Read => Quiet(s, a) && StatusOf(s.host, a) != UNINIT
  }

  /** And what the device returns. */
  ghost predicate Disciplined(w: World, mine: set<Addr>, check: bool, act: Act)
    requires FlashClient.Booked(w.client)
  {
    var s := w.client;
    match act
    case Elsewhere(a, _) => a !in mine
    case Own(IssueRequest(k, t, a)) => t in UseOf(s, k).held && t < NUM_TAGS ==> MayIssue(s, mine, check, k, t, a)
    case Own(Perform(k, t, page, _)) =>
      k == Read && t in s.read.flying ==> Readable(At(w.flash, s.read.flying[t].addr), page)
    case Own(DataCheck(c, _)) => c == check
    case Own(_) => true
  }

  // ----- what it keeps -----

  ghost predicate SettledAs(check: bool, status: Status, c: Content, a: Addr) {
    match status
    case ERASED => c.Blank?
    case WRITTEN => c.Programmed? && |c.page| == PAGE_WORDS && (check ==> HoldsGolden(a, c.page, PAGE_WORDS))
    case BAD => true
    case UNINIT => true
  }

  /** A request in flight, by the recorded status of its block, what the block holds, and its tag's buffers. */
  ghost predicate FlightOk(check: bool, k: Kind, q: Request, s: Status, c: Content, out: seq<nat>, back: seq<nat>) {
    match k
    case Erase => s == ERASED && (q.stage != Requested && !q.bad ==> c.Blank?)
    case Write =>
      && s in {WRITTEN, BAD}
      && if q.stage != Requested then SettledAs(check, s, c, q.addr)
         else (s == WRITTEN ==> c.Blank?) && (check ==> HoldsGolden(q.addr, out, PAGE_WORDS))
    case Read => s != UNINIT && (q.stage != Requested ==> Readable(c, back))
  }

  ghost predicate FlightAt(w: World, check: bool, k: Kind, t: nat)
    requires FlashHost.Formed(w.client.host)
  {
    t in UseOf(w.client, k).flying && t < NUM_TAGS ==>
      var q, h := UseOf(w.client, k).flying[t], w.client.host;
      FlightOk(check, k, q, StatusOf(h, q.addr), At(w.flash, q.addr), h.writeBuffers[t], h.readBuffers[t])
  }

  /** An erase or write in flight has its block to itself. */
  ghost predicate Alone(s: FlashClient.System, k: Kind, t: nat) {
    t in UseOf(s, k).flying && k != Read ==>
      forall j, u {:trigger OnBlock(s, j, u, UseOf(s, k).flying[t].addr)} ::
        OnBlock(s, j, u, UseOf(s, k).flying[t].addr) ==> j == k && u == t
  }

  ghost predicate BlockAt(w: World, check: bool, a: Addr) {
    Quiet(w.client, a) ==> SettledAs(check, StatusOf(w.client.host, a), At(w.flash, a), a)
  }

  ghost predicate Mine(s: FlashClient.System, mine: set<Addr>, k: Kind, t: nat) {
    t in UseOf(s, k).flying ==> UseOf(s, k).flying[t].addr in mine
  }

  ghost predicate WorldInv(w: World, mine: set<Addr>, check: bool) {
    && FlashClient.Booked(w.client)
    && w.client.host.testPass
    && (forall k, t {:trigger Mine(w.client, mine, k, t)} :: Mine(w.client, mine, k, t))
    && (forall k, t {:trigger Alone(w.client, k, t)} :: Alone(w.client, k, t))
    && (forall k, t {:trigger FlightAt(w, check, k, t)} :: FlightAt(w, check, k, t))
    && forall a {:trigger BlockAt(w, check, a)} :: a in mine ==> BlockAt(w, check, a)
  }

  // ----- every step keeps it -----

  ghost predicate SameBlocks(s: FlashClient.System, r: FlashClient.System) {
    forall k, t, a {:trigger OnBlock(r, k, t, a)} :: OnBlock(r, k, t, a) <==> OnBlock(s, k, t, a)
  }

  /** Nothing changes for any request in flight but the ones told apart by `touched`. */
  lemma Rest(w: World, r: World, mine: set<Addr>, check: bool)
    requires WorldInv(w, mine, check) && FlashClient.Booked(r.client) && SameBlocks(w.client, r.client)
    ensures forall k, t {:trigger Mine(r.client, mine, k, t)} :: Mine(r.client, mine, k, t)
    ensures forall k, t {:trigger Alone(r.client, k, t)} :: Alone(r.client, k, t)
    ensures forall a :: Quiet(r.client, a) <==> Quiet(w.client, a)
  {
    forall k, t
      ensures Mine(r.client, mine, k, t) && Alone(r.client, k, t)
    {
      assert Mine(w.client, mine, k, t) && Alone(w.client, k, t);
      if t in UseOf(r.client, k).flying {
        assert OnBlock(r.client, k, t, UseOf(r.client, k).flying[t].addr);
      }
    }
    forall a
      ensures Quiet(r.client, a) <==> Quiet(w.client, a)
    {
      assert forall k, t {:trigger OnBlock(w.client, k, t, a)} ::
        OnBlock(w.client, k, t, a) ==> OnBlock(r.client, k, t, a);
    }
  }

  /** Tags taken and buffers filled, and what others do elsewhere. */
  lemma SameView(w: World, r: World, mine: set<Addr>, check: bool)
    requires WorldInv(w, mine, check) && FlashClient.Booked(r.client)
    requires forall k :: UseOf(r.client, k).flying == UseOf(w.client, k).flying
    requires forall a :: a in mine ==> At(r.flash, a) == At(w.flash, a)
    requires var h, g := w.client.host, r.client.host;
             && g.status == h.status && g.readBuffers == h.readBuffers && g.testPass == h.testPass
             && forall t :: 0 <= t < NUM_TAGS && t in w.client.write.flying ==> g.writeBuffers[t] == h.writeBuffers[t]
    ensures WorldInv(r, mine, check)
  {
    Rest(w, r, mine, check);
    forall k, t
      ensures FlightAt(r, check, k, t)
    {
      assert FlightAt(w, check, k, t) && Mine(w.client, mine, k, t);
    }
    forall a | a in mine
      ensures BlockAt(r, check, a)
    {
      assert BlockAt(w, check, a);
    }
  }

  lemma TagBound(s: FlashClient.System, k: Kind, t: nat)
    requires FlashClient.Booked(s) && t in UseOf(s, k).held + UseOf(s, k).flying.Keys
    ensures t < NUM_TAGS && !(t in UseOf(s, k).held && t in UseOf(s, k).flying)
    ensures t in UseOf(s, k).flying && k != Write ==>
              LaneOf(s.host, k).tags[t].addr == UseOf(s, k).flying[t].addr
  {
    assert LaneBooked(LaneOf(s.host, k), UseOf(s, k), k);
    assert TagBooked(LaneOf(s.host, k), UseOf(s, k), k, t);
  }

  /** A request in flight is none the worse for what changes another's block and buffers. */
  lemma OtherFlight(w: World, r: World, check: bool, k: Kind, t: nat, j: Kind, u: nat)
    requires FlashHost.Formed(w.client.host) && FlashHost.Formed(r.client.host)
    requires FlightAt(w, check, j, u) && Alone(w.client, k, t) && t in UseOf(w.client, k).flying
    requires !(j == k && u == t)
    requires u in UseOf(r.client, j).flying ==>
               u in UseOf(w.client, j).flying && UseOf(r.client, j).flying[u] == UseOf(w.client, j).flying[u]
    requires var a, h, g := UseOf(w.client, k).flying[t].addr, w.client.host, r.client.host;
             && (forall x :: x != a || k == Read ==> At(r.flash, x) == At(w.flash, x))
             && (forall x :: x != a || k == Read ==> StatusOf(g, x) == StatusOf(h, x))
             && g.writeBuffers == h.writeBuffers
             && forall v :: 0 <= v < NUM_TAGS && (v != t || k != Read) ==> g.readBuffers[v] == h.readBuffers[v]
    ensures FlightAt(r, check, j, u)
  {
    if u in UseOf(w.client, j).flying {
      assert OnBlock(w.client, j, u, UseOf(w.client, j).flying[u].addr);
    }
  }

  /** One request gets further. */
  lemma OneMoves(w: World, r: World, mine: set<Addr>, check: bool, k: Kind, t: nat, q: Request)
    requires WorldInv(w, mine, check) && FlashClient.Booked(r.client) && r.client.host.testPass
    requires t in UseOf(w.client, k).flying && t < NUM_TAGS && q.addr == UseOf(w.client, k).flying[t].addr
    requires UseOf(r.client, k).flying == UseOf(w.client, k).flying[t := q]
    requires forall j :: j != k ==> UseOf(r.client, j).flying == UseOf(w.client, j).flying
    requires forall x :: x != q.addr || k == Read ==> At(r.flash, x) == At(w.flash, x)
    requires var h, g := w.client.host, r.client.host;
             && g.status == h.status && g.writeBuffers == h.writeBuffers
             && forall u :: 0 <= u < NUM_TAGS && (u != t || k != Read) ==> g.readBuffers[u] == h.readBuffers[u]
    requires var g := r.client.host;
             FlightOk(check, k, q, StatusOf(g, q.addr), At(r.flash, q.addr), g.writeBuffers[t], g.readBuffers[t])
    ensures WorldInv(r, mine, check)
  {
    Rest(w, r, mine, check);
    forall j, u
      ensures FlightAt(r, check, j, u)
    {
      if j == k && u == t {
        assert UseOf(r.client, j).flying[u] == q;
      } else {
        assert FlightAt(w, check, j, u);
        OtherFlight(w, r, check, k, t, j, u);
      }
    }
    assert OnBlock(w.client, k, t, q.addr);
    forall a | a in mine
      ensures BlockAt(r, check, a)
    {
      assert BlockAt(w, check, a);
    }
  }

  lemma PerformKeeps(w: World, mine: set<Addr>, check: bool, k: Kind, t: nat, page: seq<nat>, bad: bool)
    requires WorldInv(w, mine, check) && AtStage(w.client, k, t, Requested) && |page| == PAGE_WORDS && t < NUM_TAGS
    requires Disciplined(w, mine, check, Own(Perform(k, t, page, bad)))
    ensures WorldInv(Next(w, Own(Perform(k, t, page, bad))), mine, check)
  {
    var r := Next(w, Own(Perform(k, t, page, bad)));
    StepBooked(w.client, Perform(k, t, page, bad));
    assert FlightAt(w, check, k, t);
    OneMoves(w, r, mine, check, k, t, UseOf(w.client, k).flying[t].(stage := Performed, bad := bad));
  }

  /** The check of a page read passes. */
  lemma CheckPasses(w: World, mine: set<Addr>, check: bool, t: nat)
    requires WorldInv(w, mine, check) && t in w.client.read.flying && t < NUM_TAGS
    requires w.client.read.flying[t].stage == Performed
    ensures CheckRead(w.client.host, check, t) == w.client.host
  {
    var q, h := w.client.read.flying[t], w.client.host;
    var a, page := q.addr, h.readBuffers[t];
    TagBound(w.client, Read, t);
    assert FlightAt(w, check, Read, t) && Mine(w.client, mine, Read, t) && BlockAt(w, check, a);
    assert Quiet(w.client, a) by {
      forall j, u | OnBlock(w.client, j, u, a)
        ensures j == Read
      {
        assert Alone(w.client, j, u) && OnBlock(w.client, Read, t, a);
      }
    }
    if check && StatusOf(h, a) == WRITTEN {
      var c := At(w.flash, a).page;
      forall i | 0 <= i < VALID_WORDS
        ensures page[i] == Golden(a, i)
      {
        assert page[i] == page[..VALID_WORDS][i] && c[i] == c[..VALID_WORDS][i];
      }
    }
  }

  lemma DataCheckKeeps(w: World, mine: set<Addr>, check: bool, t: nat)
    requires WorldInv(w, mine, check) && AtStage(w.client, Read, t, Performed) && t < NUM_TAGS
    ensures WorldInv(Next(w, Own(DataCheck(check, t))), mine, check)
  {
    CheckPasses(w, mine, check, t);
    StepBooked(w.client, DataCheck(check, t));
    assert FlightAt(w, check, Read, t);
    OneMoves(w, Next(w, Own(DataCheck(check, t))), mine, check, Read, t, w.client.read.flying[t].(stage := Checked));
  }

  /** One request is issued ... */
  lemma OneIssued(w: World, r: World, mine: set<Addr>, check: bool, k: Kind, t: nat, a: Addr)
    requires WorldInv(w, mine, check) && FlashClient.Booked(r.client) && r.client.host.testPass
    requires t < NUM_TAGS && t !in UseOf(w.client, k).flying && MayIssue(w.client, mine, check, k, t, a)
    requires UseOf(r.client, k).flying == UseOf(w.client, k).flying[t := Request(a, Requested, false)]
    requires forall j :: j != k ==> UseOf(r.client, j).flying == UseOf(w.client, j).flying
    requires r.flash == w.flash
    requires var h, g := w.client.host, r.client.host;
             && g.writeBuffers == h.writeBuffers && g.readBuffers == h.readBuffers
             && (forall x :: x != a || k == Read ==> StatusOf(g, x) == StatusOf(h, x))
             && (k == Erase ==> StatusOf(g, a) == ERASED)
             && (k == Write ==> StatusOf(g, a) == if StatusOf(h, a) == BAD then BAD else WRITTEN)
    ensures WorldInv(r, mine, check)
  {
    assert BlockAt(w, check, a);
    if k != Read {
      assert Quiet(w.client, a);
    }
    IssuedAlone(w.client, r.client, k, t, a);
    forall j, u
      ensures Mine(r.client, mine, j, u) && FlightAt(r, check, j, u)
    {
      assert Mine(w.client, mine, j, u) && FlightAt(w, check, j, u);
      if j == k && u == t {
        assert UseOf(r.client, j).flying[u] == Request(a, Requested, false);
      } else if u in UseOf(w.client, j).flying {
        assert OnBlock(w.client, j, u, UseOf(w.client, j).flying[u].addr);
      }
    }
    assert OnBlock(r.client, k, t, a);
    forall x | x in mine
      ensures BlockAt(r, check, x)
    {
      assert BlockAt(w, check, x);
      if Quiet(r.client, x) {
        IssuedQuiet(w.client, r.client, k, t, a, x);
      }
    }
  }

  lemma IssuedQuiet(s: FlashClient.System, r: FlashClient.System, k: Kind, t: nat, a: Addr, x: Addr)
    requires t !in UseOf(s, k).flying
    requires UseOf(r, k).flying == UseOf(s, k).flying[t := Request(a, Requested, false)]
    requires forall j :: j != k ==> UseOf(r, j).flying == UseOf(s, j).flying
    requires Quiet(r, x)
    ensures Quiet(s, x)
  {
    forall j, u | OnBlock(s, j, u, x)
      ensures j == Read
    {
      assert OnBlock(r, j, u, x);
    }
  }

  lemma IssuedAlone(s: FlashClient.System, r: FlashClient.System, k: Kind, t: nat, a: Addr)
    requires forall j, u {:trigger Alone(s, j, u)} :: Alone(s, j, u)
    requires if k == Read then Quiet(s, a) else Unused(s, a)
    requires t !in UseOf(s, k).flying
    requires UseOf(r, k).flying == UseOf(s, k).flying[t := Request(a, Requested, false)]
    requires forall j :: j != k ==> UseOf(r, j).flying == UseOf(s, j).flying
    ensures forall j, u {:trigger Alone(r, j, u)} :: Alone(r, j, u)
  {
    forall j, u
      ensures Alone(r, j, u)
    {
      assert Alone(s, j, u);
      if u in UseOf(r, j).flying && j != Read {
        var x := UseOf(r, j).flying[u].addr;
        forall i, v | OnBlock(r, i, v, x)
          ensures i == j && v == u
        {
          assert OnBlock(s, i, v, x) || (i == k && v == t);
          assert OnBlock(s, j, u, x) || (j == k && u == t);
        }
      }
    }
  }

  lemma IssueKeeps(w: World, mine: set<Addr>, check: bool, k: Kind, t: nat, a: Addr)
    requires WorldInv(w, mine, check) && t in UseOf(w.client, k).held && t < NUM_TAGS
    requires MayIssue(w.client, mine, check, k, t, a)
    ensures WorldInv(Next(w, Own(IssueRequest(k, t, a))), mine, check)
  {
    StepBooked(w.client, IssueRequest(k, t, a));
    TagBound(w.client, k, t);
    OneIssued(w, Next(w, Own(IssueRequest(k, t, a))), mine, check, k, t, a);
  }

  /** ... and one completes. */
  lemma OneCompletes(w: World, r: World, mine: set<Addr>, check: bool, k: Kind, t: nat, q: Request)
    requires WorldInv(w, mine, check) && FlashClient.Booked(r.client) && r.client.host.testPass
    requires t < NUM_TAGS && t in UseOf(w.client, k).flying && q == UseOf(w.client, k).flying[t]
    requires k != Read ==> q.stage == Performed
    requires UseOf(r.client, k).flying == UseOf(w.client, k).flying - {t}
    requires forall j :: j != k ==> UseOf(r.client, j).flying == UseOf(w.client, j).flying
    requires r.flash == w.flash
    requires var h, g := w.client.host, r.client.host;
             && g.writeBuffers == h.writeBuffers && g.readBuffers == h.readBuffers
             && forall x :: StatusOf(g, x) == if k == Erase && q.bad && x == q.addr then BAD else StatusOf(h, x)
    ensures WorldInv(r, mine, check)
  {
    assert Alone(w.client, k, t) && FlightAt(w, check, k, t);
    CompletedAlone(w.client, r.client, k, t);
    forall j, u
      ensures Mine(r.client, mine, j, u) && FlightAt(r, check, j, u)
    {
      assert Mine(w.client, mine, j, u) && FlightAt(w, check, j, u);
      if !(j == k && u == t) {
        OtherFlight(w, r, check, k, t, j, u);
      }
    }
    forall x | x in mine
      ensures BlockAt(r, check, x)
    {
      assert BlockAt(w, check, x);
      if Quiet(r.client, x) && (x != q.addr || k == Read) {
        CompletedQuiet(w.client, r.client, k, t, x);
      }
    }
  }

  lemma CompletedAlone(s: FlashClient.System, r: FlashClient.System, k: Kind, t: nat)
    requires forall j, u {:trigger Alone(s, j, u)} :: Alone(s, j, u)
    requires UseOf(r, k).flying == UseOf(s, k).flying - {t}
    requires forall j :: j != k ==> UseOf(r, j).flying == UseOf(s, j).flying
    ensures forall j, u {:trigger Alone(r, j, u)} :: Alone(r, j, u)
  {
    forall j, u
      ensures Alone(r, j, u)
    {
      assert Alone(s, j, u);
      assert forall i, v, x {:trigger OnBlock(r, i, v, x)} :: OnBlock(r, i, v, x) ==> OnBlock(s, i, v, x);
    }
  }

  lemma CompletedQuiet(s: FlashClient.System, r: FlashClient.System, k: Kind, t: nat, x: Addr)
    requires t in UseOf(s, k).flying && UseOf(r, k).flying == UseOf(s, k).flying - {t}
    requires forall j :: j != k ==> UseOf(r, j).flying == UseOf(s, j).flying
    requires Quiet(r, x) && (x != UseOf(s, k).flying[t].addr || k == Read)
    ensures Quiet(s, x)
  {
    forall j, u | OnBlock(s, j, u, x)
      ensures j == Read
    {
      assert OnBlock(r, j, u, x) || (j == k && u == t);
    }
  }

  lemma CallbackKeeps(w: World, mine: set<Addr>, check: bool, k: Kind, t: nat)
    requires WorldInv(w, mine, check) && t < NUM_TAGS
    requires AtStage(w.client, k, t, if k == Read then Checked else Performed)
    ensures WorldInv(Next(w, Own(Callback(k, t))), mine, check)
  {
    StepBooked(w.client, Callback(k, t));
    TagBound(w.client, k, t);
    OneCompletes(w, Next(w, Own(Callback(k, t))), mine, check, k, t, UseOf(w.client, k).flying[t]);
  }

  lemma TakeKeeps(w: World, mine: set<Addr>, check: bool, k: Kind)
    requires WorldInv(w, mine, check)
    ensures WorldInv(Next(w, Own(TakeTag(k))), mine, check)
  {
    StepBooked(w.client, TakeTag(k));
    SameView(w, Next(w, Own(TakeTag(k))), mine, check);
  }

  lemma FillKeeps(w: World, mine: set<Addr>, check: bool, t: nat, page: seq<nat>)
    requires WorldInv(w, mine, check)
    ensures WorldInv(Next(w, Own(Fill(t, page))), mine, check)
  {
    StepBooked(w.client, Fill(t, page));
    if t in w.client.write.held {
      TagBound(w.client, Write, t);
    }
    SameView(w, Next(w, Own(Fill(t, page))), mine, check);
  }

  lemma QuietStep(w: World, mine: set<Addr>, check: bool, act: Act)
    requires WorldInv(w, mine, check) && Disciplined(w, mine, check, act)
    requires act.Elsewhere? || act.event.TakeTag? || act.event.Fill?
    ensures WorldInv(Next(w, act), mine, check)
  {
    match act
    case Elsewhere(_, _) => SameView(w, Next(w, act), mine, check);
    case Own(TakeTag(k)) => TakeKeeps(w, mine, check, k);
    case Own(Fill(t, page)) => FillKeeps(w, mine, check, t, page);
  }

  lemma NextKeeps(w: World, mine: set<Addr>, check: bool, act: Act)
    requires WorldInv(w, mine, check) && Disciplined(w, mine, check, act)
    ensures WorldInv(Next(w, act), mine, check)
  {
    if act.Elsewhere? || act.event.TakeTag? || act.event.Fill? {
      QuietStep(w, mine, check, act);
    } else if FlashClient.Possible(w.client, act.event) {
      match act.event
      case IssueRequest(k, t, a) => IssueKeeps(w, mine, check, k, t, a);
      case Perform(k, t, page, bad) => PerformKeeps(w, mine, check, k, t, page, bad);
      case DataCheck(_, t) => DataCheckKeeps(w, mine, check, t);
      case Callback(k, t) => CallbackKeeps(w, mine, check, k, t);
    }
  }

  // ----- every run -----

  /** Every list of steps is a run; states whose books are wrong do not occur, and go nowhere. */
  ghost function Run(w: World, acts: seq<Act>): World
    decreases |acts|
  {
    if acts == [] || !FlashClient.Booked(w.client) then w else Run(Next(w, acts[0]), acts[1..])
  }

  ghost predicate AllDisciplined(w: World, mine: set<Addr>, check: bool, acts: seq<Act>)
    decreases |acts|
  {
    acts == [] || (FlashClient.Booked(w.client) && Disciplined(w, mine, check, acts[0])
                   && AllDisciplined(Next(w, acts[0]), mine, check, acts[1..]))
  }

  lemma {:induction false} RunKeeps(w: World, mine: set<Addr>, check: bool, acts: seq<Act>)
    requires WorldInv(w, mine, check) && AllDisciplined(w, mine, check, acts)
    ensures WorldInv(Run(w, acts), mine, check)
    decreases |acts|
  {
    if acts != [] {
      NextKeeps(w, mine, check, acts[0]);
      RunKeeps(Next(w, acts[0]), mine, check, acts[1..]);
    }
  }

  /** A host as it comes up: tags idle, counters zero, no block known. */
  ghost predicate ComesUp(h: Host) {
    && FlashHost.Formed(h) && h.testPass && (forall a :: StatusOf(h, a) == UNINIT)
    && forall k :: LaneOf(h, k).inFlight == 0 && forall t :: 0 <= t < NUM_TAGS ==> !LaneOf(h, k).tags[t].busy
  }

  /** The verdict of a disciplined client stays `pass` in every run, whatever its requests and whatever
      happens elsewhere, and each of its blocks with no erase or write under way is as recorded. */
  lemma DisciplinedPasses(h: Host, flash: map<Addr, Content>, mine: set<Addr>, check: bool, acts: seq<Act>)
    requires ComesUp(h)
    requires var none := Use({}, map[]);
             AllDisciplined(World(FlashClient.System(h, none, none, none), flash), mine, check, acts)
    ensures var none := Use({}, map[]);
            var r := Run(World(FlashClient.System(h, none, none, none), flash), acts);
            && r.client.host.testPass
            && forall a :: a in mine && Quiet(r.client, a) ==>
                 SettledAs(check, StatusOf(r.client.host, a), At(r.flash, a), a)
  {
    var none := Use({}, map[]);
    var w := World(FlashClient.System(h, none, none, none), flash);
    StartBooked(h);
    assert WorldInv(w, mine, check);
    RunKeeps(w, mine, check, acts);
    var r := Run(w, acts);
    forall a | a in mine && Quiet(r.client, a)
      ensures SettledAs(check, StatusOf(r.client.host, a), At(r.flash, a), a)
    {
      assert BlockAt(r, check, a);
    }
  }
}
