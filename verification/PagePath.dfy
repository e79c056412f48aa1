/**
 The host's tag pool of flashemul/main.cpp joined to the interface of
 flashemul/Interface.bsv through the command FIFO, the two page directions and
 the indications.  The platform is the environment: for every read command it
 delivers one page of 1024 words under the command's tag.
 */
module PagePath {
  import opened BurstPath

  datatype Command = Command(write: bool, pageIdx: bv64, tag: nat)
  datatype Indication = ReadDone(tag: nat) | WriteDone(tag: nat)

  const COMMAND_DEPTH := 64
  const TAG_QUEUE_DEPTH := 64
  const WRITE_TAGS := 1

  /** `requests` and `indications` are messages on their way between host and device;
      `served` are the commands the platform has taken, `granted` counts the read commands among them by
      tag; `pagesOut` are the tags of the pages asked of the read engine, `readStarts` the bytes it was
      told to start from, `wordsOut` the tags readWord has returned and `pagesWritten` the pageWriteDone
      indications raised.
      `strays` counts the completions the host did not ask for, `fails` the requests the device turned
      down.  The handler of a read completion frees its tag under the lock and counts the page after
      releasing it: `uncounted` handlers are in between. */
  datatype System = System(
    burst: State,
    bluedbmCommand: seq<Command>, writeTagQ: seq<nat>, curWriteCount: nat,
    readTagStatus: seq<int>, uncounted: nat, pageReadTotal: nat, pageWriteTotal: nat,
    requests: seq<Command>, indications: seq<Indication>,
    issued: nat, served: seq<Command>, granted: seq<nat>,
    pagesOut: seq<nat>, readStarts: seq<int>, wordsOut: seq<nat>, pagesWritten: seq<nat>,
    strays: nat, fails: nat)

  datatype Action =
    | HostReadPage(pageIdx: bv64)
    | HostWritePage(pageIdx: bv64)
    | DeliverRequest
    | ServeCommand
    | Burst(event: Event)
    | ReadWord
    | DeliverIndication
    | CountRead

  function Boot(): System {
    System(Initial(), [], [], 0, Each(0), 0, 0, 0, [], [], 0, [], Each(0), [], [], [], [], 0, 0)
  }

  predicate Formed(s: System) {
    && Shaped(s.burst)
    && |s.readTagStatus| == |s.granted| == TAGS
    && s.curWriteCount < PAGE_WORDS
    && (forall k :: 0 <= k < |s.writeTagQ| ==> s.writeTagQ[k] < TAGS)
    && (forall k :: 0 <= k < |s.bluedbmCommand| ==> s.bluedbmCommand[k].tag < TAGS)
    && forall k :: 0 <= k < |s.indications| ==> s.indications[k].tag < TAGS
  }

  /** The scan of the tag pool: the first idle tag below `n`, or `n` itself. */
  function FirstIdle(status: seq<int>, n: nat): (t: nat)
    requires n <= |status|
    ensures t <= n && (t < n ==> status[t] == 0) && forall u :: 0 <= u < t ==> status[u] != 0
  {
    if n == 0 then 0
    else
      var t := FirstIdle(status, n - 1);
      if t < n - 1 || status[n - 1] == 0 then t else n
  }

  /** readPage and writePage of the host; with no idle tag the caller stays waiting. */
  function Issue(s: System, write: bool, pageIdx: bv64): (r: System)
    requires Formed(s)
    ensures Formed(r)
  {
    var n := if write then WRITE_TAGS else TAGS;
    var t := FirstIdle(s.readTagStatus, n);
    if t == n then s else
    s.(readTagStatus := s.readTagStatus[t := PAGE_BYTES],
       requests := s.requests + [Command(write, pageIdx, t)],
       issued := s.issued + 1)
  }

  /** The request methods: a full command FIFO holds the message back.  Read requests are not
      checked by the device; one outside the pool is not modelled further. */
  function Deliver(s: System): (r: System)
    requires Formed(s) && s.requests != []
    ensures Formed(r)
  {
    var c := s.requests[0];
    if c.tag >= TAGS then
      s.(requests := s.requests[1..], fails := s.fails + 1)
    else if |s.bluedbmCommand| < COMMAND_DEPTH then
      s.(requests := s.requests[1..], bluedbmCommand := s.bluedbmCommand + [c])
    else s
  }

  /** The platform's rule: getCommand, and for a write command readPage under the same tag, in one step. */
  function Serve(s: System): (r: System)
    requires Formed(s) && s.bluedbmCommand != []
    ensures Formed(r)
  {
    var c := s.bluedbmCommand[0];
    if !c.write then
      s.(bluedbmCommand := s.bluedbmCommand[1..], served := s.served + [c],
         granted := s.granted[c.tag := s.granted[c.tag] + 1])
    else if |s.writeTagQ| < TAG_QUEUE_DEPTH then
      s.(bluedbmCommand := s.bluedbmCommand[1..], served := s.served + [c], pagesOut := s.pagesOut + [c.tag],
         readStarts := s.readStarts + [PAGE_BYTES * c.tag], writeTagQ := s.writeTagQ + [c.tag])
    else s
  }

  /** readWord: one word of the page at the head of the tag queue. */
  function NextWord(s: System): (r: System)
    requires Formed(s) && s.writeTagQ != []
    ensures Formed(r)
  {
    var t := s.writeTagQ[0];
    if s.curWriteCount + 1 >= PAGE_WORDS then
      s.(wordsOut := s.wordsOut + [t], writeTagQ := s.writeTagQ[1..], curWriteCount := 0,
         indications := s.indications + [WriteDone(t)], pagesWritten := s.pagesWritten + [t])
    else
      s.(wordsOut := s.wordsOut + [t], curWriteCount := s.curWriteCount + 1)
  }

  /** The host's indication handlers, as far as their lock sections go. */
  function Handle(s: System): (r: System)
    requires Formed(s) && s.indications != []
    ensures Formed(r)
  {
    var i := s.indications[0];
    var s' := s.(indications := s.indications[1..], readTagStatus := s.readTagStatus[i.tag := 0]);
    match i
    case ReadDone(t) =>
      s'.(uncounted := s.uncounted + 1,
          strays := if s.readTagStatus[t] == 0 then s.strays + 1 else s.strays)
    case WriteDone(t) =>
      s'.(pageWriteTotal := s.pageWriteTotal + 1)
  }

  /** The rest of the handler of a read completion. */
  function CountPage(s: System): (r: System)
    requires Formed(s) && s.uncounted > 0
    ensures Formed(r)
  {
    s.(uncounted := s.uncounted - 1, pageReadTotal := s.pageReadTotal + 1)
  }

  /** A step of the write path; a page finished there raises its indication. */
  function BurstStep(s: System, e: Event): (r: System)
    requires Formed(s)
    ensures Formed(r)
  {
    var b := Step(s.burst, e);
    s.(burst := b,
       indications := if |b.readDone| > |s.burst.readDone| then s.indications + [ReadDone(b.writeFlushTag)]
                      else s.indications)
  }

  predicate Possible(s: System, a: Action)
    requires Formed(s)
  {
    match a
    case DeliverRequest => s.requests != []
    case ServeCommand => s.bluedbmCommand != []
    // the platform delivers exactly the pages it was asked for
    case Burst(WriteWord(_, t)) => t < TAGS && |s.burst.accepted[t]| < PAGE_WORDS * s.granted[t]
    // the read engine produces exactly the pages it was asked for
    case ReadWord => |s.wordsOut| < PAGE_WORDS * |s.pagesOut| && s.writeTagQ != []
    case DeliverIndication => s.indications != []
    case CountRead => s.uncounted > 0
    case _ => true
  }

  function Act(s: System, a: Action): (r: System)
    requires Formed(s)
    ensures Formed(r)
  {
    if !Possible(s, a) then s else
    match a
    case HostReadPage(p) => Issue(s, false, p)
    case HostWritePage(p) => Issue(s, true, p)
    case DeliverRequest => Deliver(s)
    case ServeCommand => Serve(s)
    case Burst(e) => BurstStep(s, e)
    case ReadWord => NextWord(s)
    case DeliverIndication => Handle(s)
    case CountRead => CountPage(s)
  }

  /** Every list of actions is a run. */
  function History(s: System, acts: seq<Action>): (r: System)
    requires Formed(s)
    ensures Formed(r)
    decreases |acts|
  {
    if acts == [] then s else History(Act(s, acts[0]), acts[1..])
  }

  // ----- where the request of a busy tag is -----

  function CommandTags(cs: seq<Command>): seq<nat> {
    seq(|cs|, i requires 0 <= i < |cs| => cs[i].tag)
  }

  function IndicationTags(xs: seq<Indication>): seq<nat> {
    seq(|xs|, i requires 0 <= i < |xs| => xs[i].tag)
  }

  lemma CommandMoves(t: nat, cs: seq<Command>, c: Command)
    ensures Count(t, CommandTags(cs + [c])) == Count(t, CommandTags(cs)) + (if c.tag == t then 1 else 0)
    ensures cs != [] ==>
              Count(t, CommandTags(cs)) == (if cs[0].tag == t then 1 else 0) + Count(t, CommandTags(cs[1..]))
  {
    assert CommandTags(cs + [c]) == CommandTags(cs) + [c.tag];
    CountAppend(t, CommandTags(cs), c.tag);
    if cs != [] {
      assert CommandTags(cs)[1..] == CommandTags(cs[1..]);
      CountTail(t, CommandTags(cs));
    }
  }

  lemma IndicationMoves(t: nat, xs: seq<Indication>, x: Indication)
    ensures Count(t, IndicationTags(xs + [x])) == Count(t, IndicationTags(xs)) + (if x.tag == t then 1 else 0)
    ensures xs != [] ==>
              Count(t, IndicationTags(xs)) == (if xs[0].tag == t then 1 else 0) + Count(t, IndicationTags(xs[1..]))
  {
    assert IndicationTags(xs + [x]) == IndicationTags(xs) + [x.tag];
    CountAppend(t, IndicationTags(xs), x.tag);
    if xs != [] {
      assert IndicationTags(xs)[1..] == IndicationTags(xs[1..]);
      CountTail(t, IndicationTags(xs));
    }
  }

  /** The requests of tag `t` anywhere between the host and its completion: sent, queued, taken for
      reading and not announced, queued for writing, or announced and not handled. */
  function Pending(s: System, t: nat): int
    requires Formed(s) && t < TAGS
  {
    Count(t, CommandTags(s.requests)) + Count(t, CommandTags(s.bluedbmCommand))
    + (s.granted[t] - Count(t, s.burst.readDone)) + Count(t, s.writeTagQ)
    + Count(t, IndicationTags(s.indications))
  }

  ghost predicate TagInv(s: System, t: nat)
    requires Formed(s) && t < TAGS
  {
    && Pending(s, t) == (if s.readTagStatus[t] == 0 then 0 else 1)
    && Count(t, s.burst.readDone) <= s.granted[t]
    && |s.burst.accepted[t]| <= PAGE_WORDS * s.granted[t]
  }

  /** The pages sent to the engine come back word by word, in order. */
  ghost predicate OrderInv(s: System) {
    && |s.pagesWritten| <= |s.pagesOut|
    && s.pagesWritten == s.pagesOut[..|s.pagesWritten|]
    && s.writeTagQ == s.pagesOut[|s.pagesWritten|..]
    && |s.wordsOut| == PAGE_WORDS * |s.pagesWritten| + s.curWriteCount <= PAGE_WORDS * |s.pagesOut|
    && |s.readStarts| == |s.pagesOut|
    && (forall b :: 0 <= b < |s.pagesOut| ==> s.readStarts[b] == PAGE_BYTES * s.pagesOut[b])
    && forall k {:trigger s.wordsOut[k]} :: 0 <= k < |s.wordsOut| ==> s.wordsOut[k] == s.pagesOut[k / PAGE_WORDS]
  }

  /** The byte the `k`-th word read comes from: the engine executes its start commands in order, each for
      one page of words. */
  function Origin(s: System, k: nat): int
    requires k < PAGE_WORDS * |s.readStarts|
  {
    s.readStarts[k / PAGE_WORDS] + 8 * (k % PAGE_WORDS)
  }

  /** The number of busy tags among the first `n`. */
  function Busy(status: seq<int>, n: nat): nat
    requires n <= |status|
  {
    if n == 0 then 0 else Busy(status, n - 1) + (if status[n - 1] == 0 then 0 else 1)
  }

  ghost predicate SystemInv(s: System) {
    && Formed(s)
    && Inv(s.burst)
    && OrderInv(s)
    && (forall k :: 0 <= k < |s.requests| ==> s.requests[k].tag < TAGS)
    && s.strays == 0 && s.fails == 0
    && s.issued == s.pageReadTotal + s.pageWriteTotal + s.uncounted + Busy(s.readTagStatus, TAGS)
    && forall t {:trigger TagInv(s, t)} :: 0 <= t < TAGS ==> TagInv(s, t)
  }

  lemma {:induction false} BusyChanges(status: seq<int>, t: nat, v: int, n: nat)
    requires n <= |status| && t < |status|
    ensures Busy(status[t := v], n) == Busy(status, n)
            + (if t < n && v != 0 && status[t] == 0 then 1 else 0)
            - (if t < n && v == 0 && status[t] != 0 then 1 else 0)
  {
    if n > 0 {
      BusyChanges(status, t, v, n - 1);
    }
  }

  lemma IssueKeepsTag(s: System, write: bool, pageIdx: bv64, u: nat)
    requires Formed(s) && u < TAGS && TagInv(s, u)
    ensures TagInv(Issue(s, write, pageIdx), u)
  {
    var t := FirstIdle(s.readTagStatus, if write then WRITE_TAGS else TAGS);
    CommandMoves(u, s.requests, Command(write, pageIdx, t));
  }

  lemma IssueKeepsInv(s: System, write: bool, pageIdx: bv64)
    requires SystemInv(s)
    ensures SystemInv(Issue(s, write, pageIdx))
  {
    var t := FirstIdle(s.readTagStatus, if write then WRITE_TAGS else TAGS);
    if t < TAGS {
      BusyChanges(s.readTagStatus, t, PAGE_BYTES, TAGS);
    }
    forall u: nat | u < TAGS
      ensures TagInv(Issue(s, write, pageIdx), u)
    {
      assert TagInv(s, u);
      IssueKeepsTag(s, write, pageIdx, u);
    }
  }

  lemma DeliverKeepsTag(s: System, u: nat)
    requires Formed(s) && s.requests != [] && s.requests[0].tag < TAGS && u < TAGS && TagInv(s, u)
    ensures TagInv(Deliver(s), u)
  {
    CommandMoves(u, s.requests, s.requests[0]);
    CommandMoves(u, s.bluedbmCommand, s.requests[0]);
  }

  lemma DeliverKeepsInv(s: System)
    requires SystemInv(s) && s.requests != []
    ensures SystemInv(Deliver(s))
  {
    forall u: nat | u < TAGS
      ensures TagInv(Deliver(s), u)
    {
      assert TagInv(s, u);
      DeliverKeepsTag(s, u);
    }
  }

  lemma ServeKeepsTag(s: System, u: nat)
    requires Formed(s) && s.bluedbmCommand != [] && u < TAGS && TagInv(s, u)
    ensures TagInv(Serve(s), u)
  {
    var r: System, c := Serve(s), s.bluedbmCommand[0];
    CommandMoves(u, s.bluedbmCommand, c);
    CountAppend(u, s.writeTagQ, c.tag);
    assert r == s.(bluedbmCommand := r.bluedbmCommand, served := r.served, granted := r.granted,
                   pagesOut := r.pagesOut, readStarts := r.readStarts, writeTagQ := r.writeTagQ);
    assert Pending(r, u) == Pending(s, u);
  }

  lemma ServeKeepsInv(s: System)
    requires SystemInv(s) && s.bluedbmCommand != []
    ensures SystemInv(Serve(s))
  {
    forall u: nat | u < TAGS
      ensures TagInv(Serve(s), u)
    {
      assert TagInv(s, u);
      ServeKeepsTag(s, u);
    }
  }

  lemma NextWordKeepsTag(s: System, u: nat)
    requires Formed(s) && s.writeTagQ != [] && u < TAGS && TagInv(s, u)
    ensures TagInv(NextWord(s), u)
  {
    var r: System, t := NextWord(s), s.writeTagQ[0];
    CountTail(u, s.writeTagQ);
    IndicationMoves(u, s.indications, WriteDone(t));
    assert r == s.(wordsOut := r.wordsOut, writeTagQ := r.writeTagQ, curWriteCount := r.curWriteCount,
                   indications := r.indications, pagesWritten := r.pagesWritten);
    assert Pending(r, u) == Pending(s, u);
  }

  lemma NextWordKeepsOrder(s: System)
    requires Formed(s) && OrderInv(s) && Possible(s, ReadWord)
    ensures OrderInv(NextWord(s))
  {
    var r, k := NextWord(s), |s.wordsOut|;
    assert k / PAGE_WORDS == |s.pagesWritten|;
    assert s.writeTagQ[0] == s.pagesOut[|s.pagesWritten|];
    assert s.pagesOut[..|s.pagesWritten| + 1] == s.pagesOut[..|s.pagesWritten|] + [s.writeTagQ[0]];
  }

  lemma NextWordKeepsInv(s: System)
    requires SystemInv(s) && Possible(s, ReadWord)
    ensures SystemInv(NextWord(s))
  {
    NextWordKeepsOrder(s);
    forall u: nat | u < TAGS
      ensures TagInv(NextWord(s), u)
    {
      assert TagInv(s, u);
      NextWordKeepsTag(s, u);
    }
  }

  lemma HandleKeepsTag(s: System, u: nat)
    requires Formed(s) && s.indications != [] && u < TAGS && TagInv(s, u)
    ensures TagInv(Handle(s), u)
    ensures s.indications[0].tag == u ==> s.readTagStatus[u] != 0
  {
    IndicationMoves(u, s.indications, s.indications[0]);
  }

  lemma HandleKeepsInv(s: System)
    requires SystemInv(s) && s.indications != []
    ensures SystemInv(Handle(s))
  {
    var t := s.indications[0].tag;
    assert TagInv(s, t);
    HandleKeepsTag(s, t);
    BusyChanges(s.readTagStatus, t, 0, TAGS);
    forall u: nat | u < TAGS
      ensures TagInv(Handle(s), u)
    {
      assert TagInv(s, u);
      HandleKeepsTag(s, u);
    }
  }

  lemma CountKeepsInv(s: System)
    requires SystemInv(s) && s.uncounted > 0
    ensures SystemInv(CountPage(s))
  {
    forall u: nat | u < TAGS
      ensures TagInv(CountPage(s), u)
    {
      assert TagInv(s, u);
    }
  }

  /** What a step of the write path adds to the record of the host's words and pages. */
  lemma StepRecords(b: State, e: Event, u: nat)
    requires Shaped(b) && u < TAGS
    ensures var r := Step(b, e);
            && (r.readDone == b.readDone || r.readDone == b.readDone + [r.writeFlushTag])
            && |r.accepted[u]| <= |b.accepted[u]| + (if e.WriteWord? && e.tag == u then 1 else 0)
  {
  }

  lemma AnnouncedWithin(bursts: nat, left: nat, accepted: nat, granted: nat)
    requires BURST * bursts - left <= accepted <= PAGE_WORDS * granted && left <= BURST
    ensures bursts / 64 <= granted
  {
  }

  lemma BurstIndicates(s: System, e: Event, u: nat, b: State, r: System)
    requires Formed(s) && u < TAGS && b == Step(s.burst, e) && r == BurstStep(s, e)
    ensures Count(u, IndicationTags(r.indications)) - Count(u, b.readDone)
         == Count(u, IndicationTags(s.indications)) - Count(u, s.burst.readDone)
  {
    StepRecords(s.burst, e, u);
    CountAppend(u, s.burst.readDone, b.writeFlushTag);
    IndicationMoves(u, s.indications, ReadDone(b.writeFlushTag));
  }

  lemma BurstPending(s: System, e: Event, u: nat, b: State, r: System)
    requires Formed(s) && u < TAGS && b == Step(s.burst, e) && r == BurstStep(s, e)
    ensures Pending(r, u) == Pending(s, u)
  {
    assert r == s.(burst := b, indications := r.indications);
    BurstIndicates(s, e, u, b, r);
  }

  /** The write path announces at most one page a step, and never one the platform was not asked for. */
  lemma BurstKeepsTag(s: System, e: Event, u: nat, b: State, r: System)
    requires Formed(s) && u < TAGS && TagInv(s, u) && Possible(s, Burst(e))
    requires b == Step(s.burst, e) && r == BurstStep(s, e)
    requires Counted(b, u) && b.writeFlushCounter <= BURST
    ensures TagInv(r, u)
  {
    assert r == s.(burst := b, indications := r.indications);
    StepRecords(s.burst, e, u);
    AnnouncedWithin(Count(u, b.bursts), InFlush(b, u), |b.accepted[u]|, s.granted[u]);
    BurstPending(s, e, u, b, r);
  }

  lemma BurstKeepsInv(s: System, e: Event)
    requires SystemInv(s) && Possible(s, Burst(e))
    ensures SystemInv(BurstStep(s, e))
  {
    var b: State, r: System := Step(s.burst, e), BurstStep(s, e);
    StepKeepsInv(s.burst, e);
    forall u: nat | u < TAGS
      ensures TagInv(r, u)
    {
      assert TagInv(s, u);
      InvAt(b, u);
      BurstKeepsTag(s, e, u, b, r);
    }
  }

  lemma ActKeepsInv(s: System, a: Action)
    requires SystemInv(s)
    ensures SystemInv(Act(s, a))
  {
    if Possible(s, a) {
      match a
      case HostReadPage(p) => IssueKeepsInv(s, false, p);
      case HostWritePage(p) => IssueKeepsInv(s, true, p);
      case DeliverRequest => DeliverKeepsInv(s);
      case ServeCommand => ServeKeepsInv(s);
      case Burst(e) => BurstKeepsInv(s, e);
      case ReadWord => NextWordKeepsInv(s);
      case DeliverIndication => HandleKeepsInv(s);
      case CountRead => CountKeepsInv(s);
    }
  }

  lemma {:induction false} NothingBusy(n: nat)
    requires n <= TAGS
    ensures Busy(Each(0), n) == 0
  {
    if n > 0 {
      NothingBusy(n - 1);
    }
  }

  lemma BootInv()
    ensures SystemInv(Boot())
  {
    InitialInv();
    NothingBusy(TAGS);
    forall t: nat | t < TAGS
      ensures TagInv(Boot(), t)
    {
    }
  }

  lemma {:induction false} HistoryKeepsInv(s: System, acts: seq<Action>)
    requires SystemInv(s)
    ensures SystemInv(History(s, acts))
    decreases |acts|
  {
    if acts != [] {
      ActKeepsInv(s, acts[0]);
      HistoryKeepsInv(Act(s, acts[0]), acts[1..]);
    }
  }

  lemma {:induction false} Reached(acts: seq<Action>)
    ensures SystemInv(History(Boot(), acts))
  {
    BootInv();
    HistoryKeepsInv(Boot(), acts);
  }

  // ----- what every run guarantees -----

  /** A busy tag has exactly one request pending and an idle tag none; so nothing unasked for is ever
      announced, no request is turned down, and requests issued are completions counted, completions
      handled but not yet counted, and busy tags. */
  lemma OneRequestPerBusyTag(acts: seq<Action>, t: nat)
    requires t < TAGS
    ensures var s := History(Boot(), acts);
            && Pending(s, t) == (if s.readTagStatus[t] == 0 then 0 else 1)
            && s.strays == 0 && s.fails == 0
            && s.issued == s.pageReadTotal + s.pageWriteTotal + s.uncounted + Busy(s.readTagStatus, TAGS)
  {
    Reached(acts);
    assert TagInv(History(Boot(), acts), t);
  }

  /** pageReadDone has been raised for a tag once for every 64 bursts started for it, and for no page
      the platform was not asked for. */
  lemma ReadDoneOncePerPage(acts: seq<Action>, t: nat)
    requires t < TAGS
    ensures var s := History(Boot(), acts);
            && Count(t, s.burst.readDone) == Count(t, s.burst.bursts) / 64 <= s.granted[t]
            && |s.burst.accepted[t]| <= PAGE_WORDS * s.granted[t]
  {
    Reached(acts);
    assert TagInv(History(Boot(), acts), t);
    InvAt(History(Boot(), acts).burst, t);
  }

  /** The words that come back carry their page's tag in the order the pages were asked for, each is the
      next word of that tag's own page buffer, and pageWriteDone is raised once a page, in that order, on the
      page's last word. */
  lemma PagesWrittenInOrder(acts: seq<Action>)
    ensures OrderInv(History(Boot(), acts))
    ensures var s := History(Boot(), acts);
            && |s.pagesWritten| == |s.wordsOut| / PAGE_WORDS && s.curWriteCount == |s.wordsOut| % PAGE_WORDS
            && forall k {:trigger s.wordsOut[k]} :: 0 <= k < |s.wordsOut| ==>
                 Origin(s, k) == PAGE_BYTES * s.wordsOut[k] + 8 * (k % PAGE_WORDS)
  {
    Reached(acts);
  }

  /** The sum of the counts of the first `n` tags. */
  function Total(q: seq<nat>, n: nat): nat {
    if n == 0 then 0 else Total(q, n - 1) + Count(n - 1, q)
  }

  lemma {:induction false} TotalAppend(q: seq<nat>, x: nat, n: nat)
    ensures Total(q + [x], n) == Total(q, n) + (if x < n then 1 else 0)
  {
    if n > 0 {
      TotalAppend(q, x, n - 1);
      CountAppend(n - 1, q, x);
    }
  }

  lemma {:induction false} TotalIsLength(q: seq<nat>, n: nat)
    requires forall k :: 0 <= k < |q| ==> q[k] < n
    ensures Total(q, n) == |q|
  {
    if q == [] {
      TotalOfNothing(n);
    } else {
      TotalIsLength(q[..|q| - 1], n);
      TotalAppend(q[..|q| - 1], q[|q| - 1], n);
      assert q == q[..|q| - 1] + [q[|q| - 1]];
    }
  }

  lemma {:induction false} TotalOfNothing(n: nat)
    ensures Total([], n) == 0
  {
    if n > 0 {
      TotalOfNothing(n - 1);
    }
  }

  lemma {:induction false} TotalWithin(q: seq<nat>, r: seq<nat>, status: seq<int>, n: nat)
    requires n <= |status|
    requires forall t: nat | t < n :: Count(t, q) + Count(t, r) <= (if status[t] == 0 then 0 else 1)
    ensures Total(q, n) + Total(r, n) <= Busy(status, n) <= n
  {
    if n > 0 {
      TotalWithin(q, r, status, n - 1);
    }
  }

  /** Neither tag-bounded FIFO of the device can ever hold up its producer: commands and page tags
      together never outnumber the busy tags, and there are as many slots in each as there are tags. */
  lemma QueuesNeverBlock(acts: seq<Action>)
    ensures var s := History(Boot(), acts);
            && |s.bluedbmCommand| + |s.writeTagQ| <= Busy(s.readTagStatus, TAGS) <= TAGS
            && (s.requests != [] ==> |s.bluedbmCommand| < COMMAND_DEPTH)
            && (s.bluedbmCommand != [] ==> |s.writeTagQ| < TAG_QUEUE_DEPTH)
  {
    Reached(acts);
    QueuesHaveRoom(History(Boot(), acts));
  }

  lemma QueuesHaveRoom(s: System)
    requires SystemInv(s)
    ensures |s.bluedbmCommand| + |s.writeTagQ| <= Busy(s.readTagStatus, TAGS) <= TAGS
    ensures s.requests != [] ==> |s.bluedbmCommand| < COMMAND_DEPTH
    ensures s.bluedbmCommand != [] ==> |s.writeTagQ| < TAG_QUEUE_DEPTH
  {
    var q, r := CommandTags(s.bluedbmCommand), s.writeTagQ;
    forall t: nat | t < TAGS
      ensures Count(t, q) + Count(t, r) + Count(t, CommandTags(s.requests)) <= if s.readTagStatus[t] == 0 then 0 else 1
    {
      assert TagInv(s, t);
    }
    TotalIsLength(q, TAGS);
    TotalIsLength(r, TAGS);
    TotalWithin(q, r, s.readTagStatus, TAGS);
    if s.requests != [] {
      var c := CommandTags(s.requests);
      TotalIsLength(c, TAGS);
      TotalWithin(q, c, s.readTagStatus, TAGS);
    }
  }

  /** The scan of waitTagFlush: the first busy tag below `n`, or `n` itself. */
  function FirstBusy(status: seq<int>, n: nat): (t: nat)
    requires n <= |status|
    ensures t <= n && (t < n ==> status[t] != 0) && forall u :: 0 <= u < t ==> status[u] == 0
  {
    if n == 0 then 0
    else
      var t := FirstBusy(status, n - 1);
      if t < n - 1 || status[n - 1] != 0 then t else n
  }

  lemma {:induction false} NoneBusy(status: seq<int>, n: nat)
    requires n <= |status| && forall t :: 0 <= t < n ==> status[t] == 0
    ensures Busy(status, n) == 0
  {
    if n > 0 {
      NoneBusy(status, n - 1);
    }
  }

  ghost predicate NothingUnderway(s: System, t: nat)
    requires Formed(s) && t < TAGS
  {
    && Count(t, CommandTags(s.requests)) == 0 && Count(t, CommandTags(s.bluedbmCommand)) == 0
    && Count(t, s.writeTagQ) == 0 && Count(t, IndicationTags(s.indications)) == 0
    && Count(t, s.burst.nextBurstQ) == 0
  }

  /** Every page of the tag that was asked for has been delivered, announced and, but for the burst
      in flush, has left the tag's buffer. */
  ghost predicate PagesDelivered(s: System, t: nat)
    requires Formed(s) && t < TAGS
  {
    && |s.burst.accepted[t]| == PAGE_WORDS * s.granted[t]
    && |s.burst.writeBuffer[t]| == InFlush(s.burst, t)
    && Count(t, s.burst.readDone) == s.granted[t]
  }

  lemma SettledTag(s: System, t: nat)
    requires Formed(s) && t < TAGS && TagInv(s, t) && s.readTagStatus[t] == 0
    requires Counted(s.burst, t)
    ensures NothingUnderway(s, t) && PagesDelivered(s, t)
  {
    var g, b := s.granted[t], Count(t, s.burst.bursts);
    assert b / 64 == g && b >= 64 * g;
    assert |s.burst.accepted[t]| >= BURST * b;
  }

  lemma LastIsCounted(q: seq<nat>)
    ensures q != [] ==> Count(q[|q| - 1], q) > 0
  {
  }

  lemma EmptyWhenUncounted(q: seq<nat>)
    requires forall k :: 0 <= k < |q| ==> q[k] < TAGS
    requires forall t: nat | t < TAGS :: Count(t, q) == 0
    ensures q == []
  {
    LastIsCounted(q);
  }

  lemma NothingLeft(s: System)
    requires SystemInv(s)
    requires forall t: nat {:trigger NothingUnderway(s, t)} | t < TAGS :: NothingUnderway(s, t)
    ensures s.requests == [] && s.bluedbmCommand == [] && s.writeTagQ == [] && s.indications == []
    ensures s.pagesWritten == s.pagesOut && s.burst.nextBurstQ == []
  {
    forall t: nat | t < TAGS
      ensures Count(t, CommandTags(s.requests)) == 0 && Count(t, CommandTags(s.bluedbmCommand)) == 0
      ensures Count(t, s.writeTagQ) == 0 && Count(t, IndicationTags(s.indications)) == 0
      ensures Count(t, s.burst.nextBurstQ) == 0
    {
      assert NothingUnderway(s, t);
    }
    EmptyWhenUncounted(CommandTags(s.requests));
    EmptyWhenUncounted(CommandTags(s.bluedbmCommand));
    EmptyWhenUncounted(s.writeTagQ);
    EmptyWhenUncounted(IndicationTags(s.indications));
    EmptyWhenUncounted(s.burst.nextBurstQ);
  }

  /** waitTagFlush returns when its scan finds no busy tag.  By then every request issued has completed,
      nothing is left on its way, and every page asked for has gone word for word into bursts.  The totals
      are right if and only if no handler has still to count its page. */
  lemma FlushedMeansComplete(s: System)
    requires SystemInv(s) && FirstBusy(s.readTagStatus, TAGS) == TAGS
    ensures s.issued == s.pageReadTotal + s.pageWriteTotal + s.uncounted
    ensures s.issued == s.pageReadTotal + s.pageWriteTotal <==> s.uncounted == 0
    ensures s.requests == [] && s.bluedbmCommand == [] && s.writeTagQ == [] && s.indications == []
    ensures s.pagesWritten == s.pagesOut && s.burst.nextBurstQ == []
    ensures forall t: nat | t < TAGS :: PagesDelivered(s, t)
  {
    NoneBusy(s.readTagStatus, TAGS);
    forall t: nat | t < TAGS
      ensures NothingUnderway(s, t) && PagesDelivered(s, t)
    {
      assert TagInv(s, t);
      InvAt(s.burst, t);
      SettledTag(s, t);
    }
    NothingLeft(s);
  }
}
