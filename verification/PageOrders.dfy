/**
 What the host of flashemul/main.cpp asks for is what the platform is given and
 what is completed: every command once, in order, each as what it is.
 */
module PageOrders {
  import opened BurstPath
  import opened PagePath
  import opened PageFlush

  // ----- what is asked for -----

  /** The command a call of readPage or writePage sends: for its own page, under the lowest idle tag of its
      pool; none while the pool is busy. */
  function AskedBy(s: System, a: Action): seq<Command>
    requires Formed(s)
  {
    match a
    case HostReadPage(p) =>
      var t := FirstIdle(s.readTagStatus, 64);
      if t < 64 then [Command(false, p, t)] else []
    case HostWritePage(p) =>
      var t := FirstIdle(s.readTagStatus, 1);
      if t < 1 then [Command(true, p, t)] else []
    case _ => []
  }

  function Asked(s: System, acts: seq<Action>): seq<Command>
    requires Formed(s)
    decreases |acts|
  {
    if acts == [] then [] else AskedBy(s, acts[0]) + Asked(Act(s, acts[0]), acts[1..])
  }

  /** The tags of the writes among some commands, and how many of them are reads under a tag. */
  function WriteTags(cs: seq<Command>): seq<nat> {
    if cs == [] then []
    else WriteTags(cs[..|cs| - 1]) + if cs[|cs| - 1].write then [cs[|cs| - 1].tag] else []
  }

  function ReadsOf(t: nat, cs: seq<Command>): nat {
    if cs == [] then 0
    else ReadsOf(t, cs[..|cs| - 1]) + if !cs[|cs| - 1].write && cs[|cs| - 1].tag == t then 1 else 0
  }

  lemma OneMoreCommand(cs: seq<Command>, c: Command, t: nat)
    ensures WriteTags(cs + [c]) == WriteTags(cs) + if c.write then [c.tag] else []
    ensures ReadsOf(t, cs + [c]) == ReadsOf(t, cs) + if !c.write && c.tag == t then 1 else 0
  {
    assert (cs + [c])[..|cs|] == cs;
  }

  // ----- what becomes of it -----

  /** The commands taken, those queued at the device, and those on their way to it. */
  function Commands(s: System): seq<Command> {
    s.served + s.bluedbmCommand + s.requests
  }

  function Dones(write: bool, xs: seq<Indication>): nat {
    if xs == [] then 0 else Dones(write, xs[..|xs| - 1]) + if xs[|xs| - 1].WriteDone? == write then 1 else 0
  }

  lemma OneMoreDone(write: bool, xs: seq<Indication>, x: Indication)
    ensures Dones(write, xs + [x]) == Dones(write, xs) + if x.WriteDone? == write then 1 else 0
  {
    assert (xs + [x])[..|xs|] == xs;
  }

  lemma {:induction false} OneDoneLess(write: bool, xs: seq<Indication>)
    requires xs != []
    ensures Dones(write, xs) == Dones(write, xs[1..]) + if xs[0].WriteDone? == write then 1 else 0
  {
    if |xs| > 1 {
      OneDoneLess(write, xs[..|xs| - 1]);
      assert xs[1..][..|xs| - 2] == xs[..|xs| - 1][1..];
    } else {
      assert xs[..0] == [] == xs[1..];
    }
  }

  /** Every command taken has gone where it belongs, and every page finished is counted for its kind, about to
      be, or announced. */
  ghost predicate Sorted(s: System) {
    && |s.granted| == TAGS
    && s.pagesOut == WriteTags(s.served)
    && (forall t: nat {:trigger s.granted[t]} | t < TAGS :: s.granted[t] == ReadsOf(t, s.served))
    && |s.pagesWritten| == s.pageWriteTotal + Dones(true, s.indications)
    && |s.burst.readDone| == s.pageReadTotal + s.uncounted + Dones(false, s.indications)
    && s.issued == |Commands(s)|
  }

  lemma ServeKeepsCommands(s: System)
    requires SystemInv(s) && s.bluedbmCommand != []
    ensures Commands(Serve(s)) == Commands(s)
  {
    QueuesHaveRoom(s);
  }

  lemma ServeCounts(s: System, r: System, c: Command)
    requires SystemInv(s) && Sorted(s) && s.bluedbmCommand != [] && c == s.bluedbmCommand[0] && r == Serve(s)
    ensures Sorted(r)
  {
    QueuesHaveRoom(s);
    ServeKeepsCommands(s);
    forall t: nat | t < TAGS
      ensures r.granted[t] == ReadsOf(t, r.served)
    {
      OneMoreCommand(s.served, c, t);
    }
    OneMoreCommand(s.served, c, 0);
    assert r.pagesOut == WriteTags(r.served);
  }

  lemma ServeSorts(s: System)
    requires SystemInv(s) && Sorted(s) && s.bluedbmCommand != []
    ensures Sorted(Serve(s)) && Commands(Serve(s)) == Commands(s)
  {
    ServeCounts(s, Serve(s), s.bluedbmCommand[0]);
    ServeKeepsCommands(s);
  }

  lemma DeliverSorts(s: System)
    requires SystemInv(s) && Sorted(s) && s.requests != []
    ensures Sorted(Deliver(s)) && Commands(Deliver(s)) == Commands(s)
  {
    QueuesHaveRoom(s);
    assert Commands(Deliver(s)) == Commands(s);
  }

  lemma IssueSorts(s: System, write: bool, p: bv64)
    requires SystemInv(s) && Sorted(s)
    ensures Sorted(Issue(s, write, p))
    ensures Commands(Issue(s, write, p)) ==
            Commands(s) + AskedBy(s, if write then HostWritePage(p) else HostReadPage(p))
  {
    var n := if write then WRITE_TAGS else TAGS;
    var t := FirstIdle(s.readTagStatus, n);
    if t < n {
      assert s.served + s.bluedbmCommand + (s.requests + [Command(write, p, t)])
          == Commands(s) + [Command(write, p, t)];
    }
  }

  lemma WordSorts(s: System)
    requires SystemInv(s) && Sorted(s) && Possible(s, ReadWord)
    ensures Sorted(NextWord(s)) && Commands(NextWord(s)) == Commands(s)
  {
    OneMoreDone(true, s.indications, WriteDone(s.writeTagQ[0]));
    OneMoreDone(false, s.indications, WriteDone(s.writeTagQ[0]));
  }

  lemma BurstSorts(s: System, e: Event)
    requires SystemInv(s) && Sorted(s)
    ensures Sorted(BurstStep(s, e)) && Commands(BurstStep(s, e)) == Commands(s)
  {
    var b := Step(s.burst, e);
    StepRecords(s.burst, e, 0);
    OneMoreDone(true, s.indications, ReadDone(b.writeFlushTag));
    OneMoreDone(false, s.indications, ReadDone(b.writeFlushTag));
  }

  lemma HandleSorts(s: System)
    requires SystemInv(s) && Sorted(s) && s.indications != []
    ensures Sorted(Handle(s)) && Commands(Handle(s)) == Commands(s)
  {
    OneDoneLess(true, s.indications);
    OneDoneLess(false, s.indications);
  }

  lemma ActSorts(s: System, a: Action)
    requires SystemInv(s) && Sorted(s)
    ensures Sorted(Act(s, a)) && Commands(Act(s, a)) == Commands(s) + AskedBy(s, a)
  {
    if Possible(s, a) {
      match a
      case HostReadPage(p) => IssueSorts(s, false, p);
      case HostWritePage(p) => IssueSorts(s, true, p);
      case DeliverRequest => DeliverSorts(s);
      case ServeCommand => ServeSorts(s);
      case Burst(e) => BurstSorts(s, e);
      case ReadWord => WordSorts(s);
      case DeliverIndication => HandleSorts(s);
      case CountRead =>
    }
  }

  // ----- every run -----

  lemma ThenMore(a: seq<Command>, b: seq<Command>, c: seq<Command>)
    ensures (a + b) + c == a + (b + c)
  {
  }

  lemma AskedNext(s: System, acts: seq<Action>, r: System, before: seq<Command>)
    requires Formed(s) && acts != [] && r == Act(s, acts[0])
    ensures History(s, acts) == History(r, acts[1..])
    ensures before + Asked(s, acts) == before + AskedBy(s, acts[0]) + Asked(r, acts[1..])
  {
    ThenMore(before, AskedBy(s, acts[0]), Asked(r, acts[1..]));
  }

  lemma {:induction false} HistorySorts(s: System, acts: seq<Action>)
    requires SystemInv(s) && Sorted(s)
    ensures Sorted(History(s, acts)) && Commands(History(s, acts)) == Commands(s) + Asked(s, acts)
    decreases |acts|
  {
    if acts != [] {
      var r := Act(s, acts[0]);
      AskedNext(s, acts, r, Commands(s));
      ActSorts(s, acts[0]);
      ActKeepsInv(s, acts[0]);
      HistorySorts(r, acts[1..]);
    }
  }

  lemma BootSorted()
    ensures Sorted(Boot()) && Commands(Boot()) == []
  {
  }

  lemma NothingBefore(a: seq<Command>, b: seq<Command>)
    requires a == []
    ensures a + b == b
  {
  }

  lemma SortedFrom(s: System, acts: seq<Action>)
    requires SystemInv(s) && Sorted(s) && Commands(s) == []
    ensures Sorted(History(s, acts)) && Commands(History(s, acts)) == Asked(s, acts)
  {
    HistorySorts(s, acts);
    NothingBefore(Commands(s), Asked(s, acts));
  }

  lemma {:induction false} RunSorted(acts: seq<Action>)
    ensures Sorted(History(Boot(), acts)) && Commands(History(Boot(), acts)) == Asked(Boot(), acts)
  {
    BootInv();
    BootSorted();
    SortedFrom(Boot(), acts);
  }

  lemma {:induction false} JoinedCommands(a: seq<Command>, b: seq<Command>, t: nat)
    ensures WriteTags(a + b) == WriteTags(a) + WriteTags(b)
    ensures ReadsOf(t, a + b) == ReadsOf(t, a) + ReadsOf(t, b)
  {
    if b == [] {
      assert a + b == a;
    } else {
      var c, rest := b[|b| - 1], b[..|b| - 1];
      JoinedCommands(a, rest, t);
      assert a + b == (a + rest) + [c] && b == rest + [c];
      OneMoreCommand(a + rest, c, t);
      OneMoreCommand(rest, c, t);
    }
  }

  lemma CommandsByKind(s: System, t: nat)
    requires SystemInv(s) && Sorted(s) && t < TAGS
    ensures WriteTags(Commands(s)) == s.pagesOut + WriteTags(s.bluedbmCommand) + WriteTags(s.requests)
    ensures ReadsOf(t, Commands(s)) == s.granted[t] + ReadsOf(t, s.bluedbmCommand) + ReadsOf(t, s.requests)
  {
    JoinedCommands(s.served + s.bluedbmCommand, s.requests, t);
    JoinedCommands(s.served, s.bluedbmCommand, t);
  }

  /** In every run the commands the host has asked for are, in order, those the platform has taken, those
      queued and those on their way, each with its kind, page and tag.  The tags of the writes among them are,
      in order, those asked of the read engine and those to come; and of a tag as many pages have been granted
      and are to come as it has reads. */
  lemma {:induction false} CommandsInOrder(acts: seq<Action>, t: nat)
    requires t < TAGS
    ensures var s, asked := History(Boot(), acts), Asked(Boot(), acts);
            && asked == s.served + s.bluedbmCommand + s.requests
            && WriteTags(asked) == s.pagesOut + WriteTags(s.bluedbmCommand) + WriteTags(s.requests)
            && ReadsOf(t, asked) == s.granted[t] + ReadsOf(t, s.bluedbmCommand) + ReadsOf(t, s.requests)
  {
    Reached(acts);
    RunSorted(acts);
    CommandsByKind(History(Boot(), acts), t);
  }

  /** The totals of the two kinds: pages written are counted or announced, pages read counted, handled and to
      be counted, or announced. */
  lemma {:induction false} TotalsByKind(acts: seq<Action>)
    ensures var s := History(Boot(), acts);
            && |s.pagesWritten| == s.pageWriteTotal + Dones(true, s.indications)
            && |s.burst.readDone| == s.pageReadTotal + s.uncounted + Dones(false, s.indications)
            && |Asked(Boot(), acts)| == s.issued
  {
    RunSorted(acts);
  }

  /** The steps of the write path among some actions. */
  function BurstEvents(s: System, acts: seq<Action>): seq<Event>
    requires Formed(s)
    decreases |acts|
  {
    if acts == [] then []
    else (if acts[0].Burst? && Possible(s, acts[0]) then [acts[0].event] else [])
         + BurstEvents(Act(s, acts[0]), acts[1..])
  }

  /** Nothing but these moves the write path, so all that is said of its runs is said of it here. */
  lemma {:induction false} BurstRuns(s: System, acts: seq<Action>)
    requires Formed(s)
    ensures History(s, acts).burst == Run(s.burst, BurstEvents(s, acts))
    decreases |acts|
  {
    if acts != [] {
      ActMoves(s, acts[0], Act(s, acts[0]), BurstEvents(Act(s, acts[0]), acts[1..]));
      BurstRuns(Act(s, acts[0]), acts[1..]);
    }
  }

  lemma ActMoves(s: System, a: Action, r: System, es: seq<Event>)
    requires Formed(s) && r == Act(s, a)
    ensures Run(s.burst, (if a.Burst? && Possible(s, a) then [a.event] else []) + es) == Run(r.burst, es)
  {
    if a.Burst? && Possible(s, a) {
      assert r == BurstStep(s, a.event);
      OneMoreEvent(s.burst, a.event, r.burst, es);
    } else {
      OtherStays(s, a);
      assert [] + es == es;
    }
  }

  lemma OtherStays(s: System, a: Action)
    requires Formed(s) && !(a.Burst? && Possible(s, a))
    ensures Act(s, a).burst == s.burst
  {
  }

  lemma OneMoreEvent(b: State, e: Event, r: State, es: seq<Event>)
    requires Shaped(b) && r == Step(b, e)
    ensures Run(b, [e] + es) == Run(r, es)
  {
    assert ([e] + es)[1..] == es;
  }

  /** The pages written are those of the host's writes, in order, and counted as such; every other request was
      a read, and is counted as such once its handler is through. */
  ghost predicate DoneAsAsked(s: System, asked: seq<Command>)
    requires Formed(s)
  {
    && s.served == asked
    && s.pagesWritten == WriteTags(asked) && s.pageWriteTotal == |WriteTags(asked)|
    && s.pageReadTotal + s.uncounted == |asked| - |WriteTags(asked)|
    && forall t: nat {:trigger s.granted[t]} | t < TAGS :: s.granted[t] == ReadsOf(t, asked)
  }

  lemma IdleAsAsked(s: System, asked: seq<Command>)
    requires SystemInv(s) && Sorted(s) && Commands(s) == asked && FirstBusy(s.readTagStatus, TAGS) == TAGS
    ensures DoneAsAsked(s, asked)
  {
    FlushedMeansComplete(s);
    assert Commands(s) == s.served;
  }

  /** So it is whenever waitTagFlush returns ... */
  lemma {:induction false} FlushedAsAsked(acts: seq<Action>)
    requires FirstBusy(History(Boot(), acts).readTagStatus, TAGS) == TAGS
    ensures DoneAsAsked(History(Boot(), acts), Asked(Boot(), acts))
  {
    Reached(acts);
    RunSorted(acts);
    IdleAsAsked(History(Boot(), acts), Asked(Boot(), acts));
  }

  lemma {:induction false} NothingAsked(s: System, acts: seq<Action>)
    requires Formed(s) && forall k :: 0 <= k < |acts| ==> !ByHost(acts[k])
    ensures Asked(s, acts) == []
    decreases |acts|
  {
    if acts != [] {
      NothingAsked(Act(s, acts[0]), acts[1..]);
    }
  }

  /** ... and so it can become after any run, without another call by the host. */
  lemma {:induction false} CompletesAsAsked(acts: seq<Action>) returns (rest: seq<Action>)
    ensures forall k :: 0 <= k < |rest| ==> !ByHost(rest[k])
    ensures var r := History(History(Boot(), acts), rest);
            DoneAsAsked(r, Asked(Boot(), acts)) && r.uncounted == 0 && SystemInv(r) && AllInMemory(r)
  {
    Reached(acts);
    RunSorted(acts);
    rest := SettlesAsAsked(History(Boot(), acts), Asked(Boot(), acts));
  }

  lemma SettlesAsAsked(s: System, asked: seq<Command>) returns (rest: seq<Action>)
    requires SystemInv(s) && Sorted(s) && Commands(s) == asked
    ensures forall k :: 0 <= k < |rest| ==> !ByHost(rest[k])
    ensures var r := History(s, rest);
            DoneAsAsked(r, asked) && r.uncounted == 0 && SystemInv(r) && AllInMemory(r)
  {
    rest := Completes(s);
    var r := History(s, rest);
    HistorySorts(s, rest);
    NothingAsked(s, rest);
    FlushedMeansComplete(r);
    IdleAsAsked(r, asked);
  }
}
