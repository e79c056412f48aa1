/**
 What the host of flashemul/main.cpp may conclude when a tag is free again or
 waitTagFlush has returned, what it may not, and that every request completes.
 */
module PageFlush {
  import opened BurstPath
  import opened BurstMemory
  import opened PagePath

  // ----- when the pages are in memory -----

  lemma IdleTagSettled(s: System, t: nat)
    requires SystemInv(s) && t < TAGS && s.readTagStatus[t] == 0
    ensures PagesDelivered(s, t) && s.burst.writeBufferOffset[t] == 0
    ensures Count(t, s.burst.bursts) == 64 * s.granted[t]
  {
    assert TagInv(s, t);
    InvAt(s.burst, t);
    SettledTag(s, t);
    assert Streamed(s.burst, t) == PAGE_WORDS * s.granted[t] - InFlush(s.burst, t);
  }

  /** A tag that is idle again has its last page in its buffer if and only if no word of that page is still
      in flush or in the engine's FIFO. */
  lemma IdleTagInMemoryIff(s: System, t: nat)
    requires SystemInv(s) && t < TAGS && s.readTagStatus[t] == 0 && s.granted[t] > 0
    ensures PageInMemory(s.burst, t, s.granted[t]) <==> InFlush(s.burst, t) == 0 && NoneWaiting(s.burst, t)
  {
    IdleTagSettled(s, t);
    AnnouncedInMemoryIff(s.burst, t);
  }

  /** Every tag's last page is in its buffer. */
  ghost predicate AllInMemory(s: System)
    requires Formed(s) && Recorded(s.burst)
  {
    forall t: nat {:trigger s.granted[t]} | t < TAGS && s.granted[t] > 0 ::
      PageInMemory(s.burst, t, s.granted[t])
  }

  /** When waitTagFlush returns, the pages are all in memory if and only if the engine has finished all
      its commands. */
  lemma FlushedInMemoryIff(s: System)
    requires SystemInv(s) && FirstBusy(s.readTagStatus, TAGS) == TAGS
    ensures AllInMemory(s) <==> s.burst.taken == BURST * |s.burst.starts|
  {
    NoneBusy(s.readTagStatus, TAGS);
    var b := s.burst;
    if b.taken == BURST * |b.starts| {
      forall t: nat | t < TAGS && s.granted[t] > 0
        ensures PageInMemory(b, t, s.granted[t])
      {
        IdleTagInMemoryIff(s, t);
      }
    } else {
      var t := if b.taken < |b.fed| then b.bursts[b.taken / BURST] else b.writeFlushTag;
      IdleTagSettled(s, t);
      UnfinishedBurst(b, t);
      IdleTagInMemoryIff(s, t);
    }
  }

  lemma UnfinishedBurst(b: State, t: nat)
    requires Inv(b) && b.taken < BURST * |b.starts|
    requires t == if b.taken < |b.fed| then b.bursts[b.taken / BURST] else b.writeFlushTag
    ensures Count(t, b.bursts) > 0 && (InFlush(b, t) > 0 || !NoneWaiting(b, t))
  {
    if b.taken < |b.fed| {
      assert Carries(b, b.taken, t);
      Counts(b.bursts, b.taken / BURST);
    } else {
      Counts(b.bursts, |b.bursts| - 1);
    }
  }

  lemma {:induction false} Counts(q: seq<nat>, k: nat)
    requires k < |q|
    ensures Count(q[k], q) > 0
  {
    if k < |q| - 1 {
      Counts(q[..|q| - 1], k);
    }
  }

  /** In every run in which waitTagFlush has returned, the flush and engine steps still to come, which need
      no more words, leave each page buffer holding exactly the last page delivered for its tag. */
  lemma FlushedPagesArrive(acts: seq<Action>) returns (es: seq<Event>)
    requires FirstBusy(History(Boot(), acts).readTagStatus, TAGS) == TAGS
    ensures forall k :: 0 <= k < |es| ==> !es[k].WriteWord?
    ensures var s := History(Boot(), acts);
            var r := Run(s.burst, es);
            && Recorded(r) && r.accepted == s.burst.accepted
            && forall t: nat {:trigger s.granted[t]} | t < TAGS && s.granted[t] > 0 ::
                 PageInMemory(r, t, s.granted[t])
  {
    Reached(acts);
    var s := History(Boot(), acts);
    FlushedMeansComplete(s);
    es := Drains(s.burst);
    var r := Run(s.burst, es);
    forall t: nat | t < TAGS && s.granted[t] > 0
      ensures PageInMemory(r, t, s.granted[t])
    {
      assert PagesDelivered(s, t);
      LastPageArrived(r, t, s.granted[t]);
    }
  }

  lemma PagesAreBursts(p: nat)
    ensures PAGE_WORDS * p % BURST == 0
  {
    assert PAGE_WORDS * p == BURST * (64 * p);
  }

  lemma LastPageArrived(r: State, t: nat, p: nat)
    requires Inv(r) && r.taken == |r.fed| && t < TAGS && p > 0
    requires |r.accepted[t]| == PAGE_WORDS * p && |r.writeBuffer[t]| == |r.accepted[t]| % BURST
    ensures PageInMemory(r, t, p)
  {
    InvAt(r, t);
    PagesAreBursts(p);
    PageWhole(r, t, p);
  }

  // ----- every request completes -----

  predicate ByHost(a: Action) {
    a.HostReadPage? || a.HostWritePage?
  }

  /** The words the platform has still to deliver for the first `n` tags. */
  function Owed(s: System, n: nat): int
    requires Formed(s) && n <= TAGS
  {
    if n == 0 then 0 else Owed(s, n - 1) + PAGE_WORDS * s.granted[n - 1] - |s.burst.accepted[n - 1]|
  }

  lemma {:induction false} OwedBySome(s: System, n: nat)
    requires SystemInv(s) && n <= TAGS
    ensures Owed(s, n) >= 0
    ensures Owed(s, n) == 0 <==> forall t :: 0 <= t < n ==> |s.burst.accepted[t]| == PAGE_WORDS * s.granted[t]
  {
    if n > 0 {
      OwedBySome(s, n - 1);
      assert TagInv(s, n - 1);
    }
  }

  lemma {:induction false} OwedChanges(s: System, r: System, u: nat, n: nat)
    requires Formed(s) && Formed(r) && n <= TAGS && u < TAGS && r.granted == s.granted
    requires forall t :: 0 <= t < TAGS && t != u ==> |r.burst.accepted[t]| == |s.burst.accepted[t]|
    ensures Owed(r, n) == Owed(s, n) - if u < n then |r.burst.accepted[u]| - |s.burst.accepted[u]| else 0
  {
    if n > 0 {
      OwedChanges(s, r, u, n - 1);
    }
  }

  function OwedPages(s: System): int {
    PAGE_WORDS * |s.pagesOut| - |s.wordsOut|
  }

  /** What is left to be done, by who has to do it first. */
  ghost predicate Lower(r: System, s: System)
    requires SystemInv(r) && SystemInv(s)
  {
    || |r.requests| < |s.requests|
    || (|r.requests| == |s.requests|
        && (|| |r.bluedbmCommand| < |s.bluedbmCommand|
            || (|r.bluedbmCommand| == |s.bluedbmCommand|
                && (OwedPages(r) < OwedPages(s) || (OwedPages(r) == OwedPages(s) && LowerTail(r, s))))))
  }

  ghost predicate LowerTail(r: System, s: System)
    requires SystemInv(r) && SystemInv(s)
  {
    || Owed(r, TAGS) < Owed(s, TAGS)
    || (Owed(r, TAGS) == Owed(s, TAGS)
        && (|| Work(r.burst) < Work(s.burst)
            || (Work(r.burst) == Work(s.burst)
                && (|| |r.indications| < |s.indications|
                    || (|r.indications| == |s.indications| && r.uncounted < s.uncounted)))))
  }

  ghost predicate Settled(s: System)
    requires SystemInv(s)
  {
    && s.requests == [] && s.bluedbmCommand == [] && OwedPages(s) == 0 && Owed(s, TAGS) == 0
    && Work(s.burst) == 0 && s.indications == [] && s.uncounted == 0
  }

  lemma DeliverLowers(s: System)
    requires SystemInv(s) && s.requests != []
    ensures Possible(s, DeliverRequest) && SystemInv(Act(s, DeliverRequest)) && Lower(Act(s, DeliverRequest), s)
  {
    ActKeepsInv(s, DeliverRequest);
    QueuesHaveRoom(s);
  }

  lemma ServeLowers(s: System)
    requires SystemInv(s) && s.bluedbmCommand != []
    ensures Possible(s, ServeCommand) && SystemInv(Act(s, ServeCommand)) && Lower(Act(s, ServeCommand), s)
  {
    ActKeepsInv(s, ServeCommand);
    QueuesHaveRoom(s);
  }

  lemma ReadWordLowers(s: System)
    requires SystemInv(s) && OwedPages(s) > 0
    ensures Possible(s, ReadWord) && SystemInv(Act(s, ReadWord)) && Lower(Act(s, ReadWord), s)
  {
    ActKeepsInv(s, ReadWord);
  }

  lemma FlushLowers(s: System) returns (a: Action)
    requires SystemInv(s) && Work(s.burst) > 0
    ensures !ByHost(a) && Possible(s, a) && SystemInv(Act(s, a)) && Lower(Act(s, a), s)
  {
    var e := NextFlush(s.burst);
    a := Burst(e);
    ActKeepsInv(s, a);
    OwedChanges(s, Act(s, a), 0, TAGS);
  }

  lemma WriteWordLowers(s: System, t: nat)
    requires SystemInv(s) && Work(s.burst) == 0 && t < TAGS && |s.burst.accepted[t]| < PAGE_WORDS * s.granted[t]
    ensures var a := Burst(WriteWord(0, t));
            Possible(s, a) && SystemInv(Act(s, a)) && Lower(Act(s, a), s)
  {
    var a := Burst(WriteWord(0, t));
    ActKeepsInv(s, a);
    DrainedBuffers(s.burst, t);
    assert Enabled(s.burst, WriteWord(0, t));
    OwedChanges(s, Act(s, a), t, TAGS);
  }

  lemma HandleLowers(s: System)
    requires SystemInv(s) && s.indications != []
    ensures SystemInv(Act(s, DeliverIndication)) && Lower(Act(s, DeliverIndication), s)
  {
    ActKeepsInv(s, DeliverIndication);
    OwedChanges(s, Act(s, DeliverIndication), 0, TAGS);
  }

  lemma CountLowers(s: System)
    requires SystemInv(s) && s.uncounted > 0
    ensures SystemInv(Act(s, CountRead)) && Lower(Act(s, CountRead), s)
  {
    ActKeepsInv(s, CountRead);
    OwedChanges(s, Act(s, CountRead), 0, TAGS);
  }

  /** While anything is left, some action other than the host's lowers it. */
  lemma NextAction(s: System) returns (a: Action)
    requires SystemInv(s) && !Settled(s)
    ensures !ByHost(a) && Possible(s, a) && SystemInv(Act(s, a)) && Lower(Act(s, a), s)
  {
    OwedBySome(s, TAGS);
    if s.requests != [] {
      a := DeliverRequest;
      DeliverLowers(s);
    } else if s.bluedbmCommand != [] {
      a := ServeCommand;
      ServeLowers(s);
    } else if OwedPages(s) > 0 {
      a := ReadWord;
      ReadWordLowers(s);
    } else if Work(s.burst) > 0 {
      a := FlushLowers(s);
    } else if Owed(s, TAGS) > 0 {
      var t :| 0 <= t < TAGS && |s.burst.accepted[t]| != PAGE_WORDS * s.granted[t];
      assert TagInv(s, t);
      a := Burst(WriteWord(0, t));
      WriteWordLowers(s, t);
    } else if s.indications != [] {
      a := DeliverIndication;
      HandleLowers(s);
    } else {
      a := CountRead;
      CountLowers(s);
    }
  }

  lemma SettledIsIdle(s: System)
    requires SystemInv(s) && Settled(s)
    ensures FirstBusy(s.readTagStatus, TAGS) == TAGS && AllInMemory(s)
  {
    OwedBySome(s, TAGS);
    assert s.writeTagQ == [];
    forall t: nat | t < TAGS
      ensures s.readTagStatus[t] == 0
    {
      assert TagInv(s, t);
      DrainedBuffers(s.burst, t);
      InvAt(s.burst, t);
    }
    FlushedInMemoryIff(s);
  }

  lemma ActIssuesNothing(s: System, a: Action)
    requires Formed(s) && !ByHost(a)
    ensures Act(s, a).issued == s.issued
  {
  }

  /** From any state, without another call by the host, everything issued can be completed, counted and put
      in memory: no tag stays busy for ever for want of a step. */
  lemma {:induction false} Completes(s: System) returns (acts: seq<Action>)
    requires SystemInv(s)
    ensures forall k :: 0 <= k < |acts| ==> !ByHost(acts[k])
    ensures var r := History(s, acts);
            && SystemInv(r) && FirstBusy(r.readTagStatus, TAGS) == TAGS && AllInMemory(r)
            && r.issued == s.issued == r.pageReadTotal + r.pageWriteTotal
    decreases |s.requests|, |s.bluedbmCommand|, OwedPages(s), Owed(s, TAGS), Work(s.burst), |s.indications|,
              s.uncounted
  {
    OwedBySome(s, TAGS);
    if Settled(s) {
      acts := [];
      SettledIsIdle(s);
      FlushedMeansComplete(s);
    } else {
      var a := NextAction(s);
      ActIssuesNothing(s, a);
      var rest := Completes(Act(s, a));
      acts := [a] + rest;
      assert acts[1..] == rest;
    }
  }

  // ----- a run in which waitTagFlush returns too early -----

  lemma HistoryNext(s: System, a: Action, acts: seq<Action>)
    requires Formed(s)
    ensures History(s, [a] + acts) == History(Act(s, a), acts)
  {
    assert ([a] + acts)[1..] == acts;
  }

  /** One page has been asked for, under tag 0, and `n` words of it have been delivered. */
  ghost predicate Filling(s: System, n: nat) {
    && SystemInv(s)
    && s.readTagStatus[0] != 0 && (forall t :: 1 <= t < TAGS ==> s.readTagStatus[t] == 0)
    && s.requests == [] && s.bluedbmCommand == [] && s.indications == []
    && s.granted[0] == 1 && |s.burst.accepted[0]| == n
    && s.issued == 1 && s.pageReadTotal == s.pageWriteTotal == s.uncounted == 0
  }

  /** The host finds no tag busy while a burst of tag 0 is still in flush and its page is not counted. */
  ghost predicate TooEarly(s: System) {
    && SystemInv(s)
    && (forall t :: 0 <= t < TAGS ==> s.readTagStatus[t] == 0)
    && s.granted[0] == 1 && InFlush(s.burst, 0) == BURST
    && s.issued == 1 && s.pageReadTotal == s.pageWriteTotal == 0
  }

  /** Before its last burst has started nothing is announced for the page. */
  lemma NothingAnnounced(s: System)
    requires SystemInv(s) && |s.burst.accepted[0]| < PAGE_WORDS
    requires s.readTagStatus[0] != 0 && forall t :: 1 <= t < TAGS ==> s.readTagStatus[t] == 0
    requires s.granted[0] == 1
    ensures s.indications == []
  {
    forall t: nat | t < TAGS
      ensures Count(t, IndicationTags(s.indications)) == 0
    {
      assert TagInv(s, t);
      InvAt(s.burst, t);
    }
    EmptyWhenUncounted(IndicationTags(s.indications));
  }

  lemma FillingFlush(s: System, n: nat) returns (a: Action)
    requires Filling(s, n) && n < PAGE_WORDS && Work(s.burst) > 0
    ensures Filling(Act(s, a), n) && Work(Act(s, a).burst) < Work(s.burst)
  {
    var e := NextFlush(s.burst);
    a := Burst(e);
    ActKeepsInv(s, a);
    NothingAnnounced(Act(s, a));
  }

  lemma FillingWord(s: System, n: nat) returns (a: Action)
    requires Filling(s, n) && n + 1 < PAGE_WORDS && Work(s.burst) == 0
    ensures Filling(Act(s, a), n + 1)
  {
    a := Burst(WriteWord(0, 0));
    WriteWordLowers(s, 0);
    NothingAnnounced(Act(s, a));
  }

  /** The last word completes the last burst ... */
  lemma LastWordQueued(s: System, r: System)
    requires Filling(s, PAGE_WORDS - 1) && Work(s.burst) == 0 && r == Act(s, Burst(WriteWord(0, 0)))
    ensures SystemInv(r) && r == s.(burst := r.burst) && Enabled(r.burst, StartWriteFlush)
    ensures r.burst.nextBurstQ == [0] && Count(0, r.burst.bursts) == 63
  {
    ActKeepsInv(s, Burst(WriteWord(0, 0)));
    DrainedBuffers(s.burst, 0);
    assert r.burst == AcceptWord(s.burst, 0, 0);
  }

  /** ... and starting that announces the page. */
  lemma LastBurstAnnounced(s: System, r: System)
    requires SystemInv(s) && Enabled(s.burst, StartWriteFlush) && s.burst.nextBurstQ == [0]
    requires Count(0, s.burst.bursts) == 63 && s.indications == [] && r == Act(s, Burst(StartWriteFlush))
    ensures SystemInv(r) && r == s.(burst := r.burst, indications := [ReadDone(0)])
    ensures InFlush(r.burst, 0) == BURST
  {
    ActKeepsInv(s, Burst(StartWriteFlush));
    InvAt(s.burst, 0);
    assert r.burst == StartBurst(s.burst);
  }

  lemma LastHandled(s: System, r: System)
    requires SystemInv(s) && s.indications == [ReadDone(0)] && r == Act(s, DeliverIndication)
    requires InFlush(s.burst, 0) == BURST && s.granted[0] == 1
    requires s.issued == 1 && s.pageReadTotal == s.pageWriteTotal == 0
    requires forall t :: 1 <= t < TAGS ==> s.readTagStatus[t] == 0
    ensures TooEarly(r)
  {
    ActKeepsInv(s, DeliverIndication);
  }

  lemma ThreeActs(s: System, a: Action, b: Action, c: Action, s1: System, s2: System, s3: System, rest: seq<Action>)
    requires Formed(s) && s1 == Act(s, a) && s2 == Act(s1, b) && s3 == Act(s2, c)
    ensures History(s, [a] + ([b] + ([c] + rest))) == History(s3, rest)
  {
    HistoryNext(s, a, [b] + ([c] + rest));
    HistoryNext(s1, b, [c] + rest);
    HistoryNext(s2, c, rest);
  }

  lemma LastWord(s: System) returns (acts: seq<Action>)
    requires Filling(s, PAGE_WORDS - 1) && Work(s.burst) == 0
    ensures TooEarly(History(s, acts))
  {
    var a, b, c := Burst(WriteWord(0, 0)), Burst(StartWriteFlush), DeliverIndication;
    var s1 := Act(s, a);
    LastWordQueued(s, s1);
    var s2 := Act(s1, b);
    LastBurstAnnounced(s1, s2);
    var s3 := Act(s2, c);
    LastHandled(s2, s3);
    ThreeActs(s, a, b, c, s1, s2, s3, []);
    acts := [a] + ([b] + ([c] + []));
  }

  lemma {:induction false} Fills(s: System, n: nat) returns (acts: seq<Action>)
    requires Filling(s, n) && n < PAGE_WORDS
    ensures TooEarly(History(s, acts))
    decreases PAGE_WORDS - n, Work(s.burst)
  {
    if Work(s.burst) == 0 && n == PAGE_WORDS - 1 {
      acts := LastWord(s);
    } else {
      var a, m := DeliverRequest, n;
      if Work(s.burst) > 0 {
        a := FillingFlush(s, n);
      } else {
        a := FillingWord(s, n);
        m := n + 1;
      }
      var rest := Fills(Act(s, a), m);
      HistoryNext(s, a, rest);
      acts := [a] + rest;
    }
  }

  lemma PageIssued(s: System)
    requires s == Act(Boot(), HostReadPage(0))
    ensures s == Boot().(readTagStatus := Each(0)[0 := PAGE_BYTES], requests := [Command(false, 0, 0)], issued := 1)
  {
    var status: seq<int> := Boot().readTagStatus;
    assert status == Each(0) && status[0] == 0;
    assert FirstIdle(status, TAGS) == 0;
  }

  lemma PageDelivered(s: System, r: System)
    requires s == Boot().(readTagStatus := Each(0)[0 := PAGE_BYTES], requests := [Command(false, 0, 0)], issued := 1)
    requires r == Act(s, DeliverRequest)
    ensures r == s.(requests := [], bluedbmCommand := [Command(false, 0, 0)])
  {
  }

  lemma PageServed(s: System, r: System)
    requires Formed(s) && s.bluedbmCommand == [Command(false, 0, 0)] && s.granted == Each(0)
    requires r == Act(s, ServeCommand)
    ensures r == s.(bluedbmCommand := [], served := r.served, granted := Each(0)[0 := 1])
  {
  }

  lemma ThreeKeepInv(s1: System, s2: System, s3: System)
    requires s1 == Act(Boot(), HostReadPage(0)) && s2 == Act(s1, DeliverRequest) && s3 == Act(s2, ServeCommand)
    ensures SystemInv(s3)
  {
    BootInv();
    ActKeepsInv(Boot(), HostReadPage(0));
    ActKeepsInv(s1, DeliverRequest);
    ActKeepsInv(s2, ServeCommand);
  }

  lemma NothingDelivered(s: System)
    requires SystemInv(s)
    requires s == Boot().(readTagStatus := Each(0)[0 := PAGE_BYTES], issued := 1, served := s.served,
                          granted := Each(0)[0 := 1])
    ensures Filling(s, 0)
  {
  }

  lemma PageAskedFor(s1: System, s2: System, s3: System)
    requires s1 == Act(Boot(), HostReadPage(0)) && s2 == Act(s1, DeliverRequest) && s3 == Act(s2, ServeCommand)
    requires SystemInv(s3)
    ensures Filling(s3, 0)
  {
    PageIssued(s1);
    PageDelivered(s1, s2);
    PageServed(s2, s3);
    NothingDelivered(s3);
  }

  /** There is a run in which waitTagFlush returns although sixteen words of the only page asked for have
      not been written, and the page has not been counted. */
  lemma FlushReturnsEarly() returns (acts: seq<Action>)
    ensures var s := History(Boot(), acts);
            && SystemInv(s) && FirstBusy(s.readTagStatus, TAGS) == TAGS
            && s.granted[0] == 1 && |WritesOf(s.burst, 0, s.burst.taken)| + BURST <= PAGE_WORDS
            && !PageInMemory(s.burst, 0, 1) && !AllInMemory(s)
            && s.issued == 1 && s.pageReadTotal + s.pageWriteTotal == 0
  {
    var a, b, c := HostReadPage(0), DeliverRequest, ServeCommand;
    var s1 := Act(Boot(), a);
    var s2 := Act(s1, b);
    var s3 := Act(s2, c);
    ThreeKeepInv(s1, s2, s3);
    PageAskedFor(s1, s2, s3);
    var words := Fills(s3, 0);
    acts := [a] + ([b] + ([c] + words));
    ThreeActs(Boot(), a, b, c, s1, s2, s3, words);
    EarlyState(History(Boot(), acts));
  }

  lemma EarlyState(s: System)
    requires TooEarly(s)
    ensures FirstBusy(s.readTagStatus, TAGS) == TAGS
    ensures |WritesOf(s.burst, 0, s.burst.taken)| + BURST <= PAGE_WORDS
    ensures !PageInMemory(s.burst, 0, 1) && !AllInMemory(s)
  {
    IdleTagSettled(s, 0);
    IdleTagInMemoryIff(s, 0);
    InvAt(s.burst, 0);
    AnnouncedAt(s.burst, 0);
  }
}
