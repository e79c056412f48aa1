/**
 The write path of flashemul/Interface.bsv as a transition system: words of 64
 tags arrive interleaved, are buffered per tag, grouped into bursts of 16 and
 streamed one burst at a time into the memory write engine.
 */
module BurstPath {

  const TAGS := 64
  const PAGE_BYTES := 8192
  const PAGE_WORDS := 1024
  const BURST := 16
  const BUFFER_DEPTH := 24
  const BURST_QUEUE_DEPTH := 8
  const WRITE_FIFO_DEPTH := 128

  /** The registers and FIFOs, then the record of what went in and out:
      `accepted` by tag, the tag and offset of every burst started, the words `fed` to the
      engine, how many of them it has `taken`, and the pageReadDone indications raised. */
  datatype State = State(
    bufferedWriteCount: seq<nat>, writeBuffer: seq<seq<bv64>>, writeBufferOffset: seq<nat>,
    writeFlushCounter: nat, writeFlushTag: nat, nextBurstQ: seq<nat>,
    accepted: seq<seq<bv64>>, bursts: seq<nat>, starts: seq<nat>,
    fed: seq<bv64>, taken: nat, readDone: seq<nat>)

  function Each<T>(x: T): (v: seq<T>)
    ensures |v| == TAGS && forall t :: 0 <= t < TAGS ==> v[t] == x
  {
    seq(TAGS, i => x)
  }

  function Initial(): State {
    State(Each(0), Each([]), Each(0), 0, 0, [], Each([]), [], [], [], 0, [])
  }

  datatype Event =
    | WriteWord(data: bv64, tag: nat)
    | StartWriteFlush
    | DriveWriteFlush
    | EngineTake

  /** One slot a tag in every register vector. */
  predicate Shaped(s: State) {
    && |s.bufferedWriteCount| == |s.writeBuffer| == |s.writeBufferOffset| == |s.accepted| == TAGS
    && s.writeFlushTag < TAGS
    && s.taken <= |s.fed|
    && (forall k :: 0 <= k < |s.nextBurstQ| ==> s.nextBurstQ[k] < TAGS)
    && forall b :: 0 <= b < |s.bursts| ==> s.bursts[b] < TAGS
  }

  /** The explicit and implicit conditions of a rule or method. */
  predicate Enabled(s: State, e: Event)
    requires Shaped(s)
  {
    match e
    case WriteWord(_, t) =>
      && t < TAGS
      && |s.writeBuffer[t]| < BUFFER_DEPTH
      && (s.bufferedWriteCount[t] + 1 >= BURST ==> |s.nextBurstQ| < BURST_QUEUE_DEPTH)
    case StartWriteFlush => s.writeFlushCounter == 0 && s.nextBurstQ != []
    case DriveWriteFlush =>
      && s.writeFlushCounter > 0
      && s.writeBuffer[s.writeFlushTag] != []
      && |s.fed| - s.taken < WRITE_FIFO_DEPTH
    case EngineTake => s.taken < |s.fed|
  }

  function AcceptWord(s: State, data: bv64, t: nat): (r: State)
    requires Shaped(s) && t < TAGS
  {
    var full := s.bufferedWriteCount[t] + 1 >= BURST;
    s.(writeBuffer := s.writeBuffer[t := s.writeBuffer[t] + [data]],
       accepted := s.accepted[t := s.accepted[t] + [data]],
       bufferedWriteCount := s.bufferedWriteCount[t := if full then 0 else s.bufferedWriteCount[t] + 1],
       nextBurstQ := if full then s.nextBurstQ + [t] else s.nextBurstQ)
  }

  function StartBurst(s: State): State
    requires Shaped(s) && s.nextBurstQ != []
  {
    var t := s.nextBurstQ[0];
    var offset := s.writeBufferOffset[t];
    var last := offset + BURST * 8 >= PAGE_BYTES;
    s.(nextBurstQ := s.nextBurstQ[1..], writeFlushTag := t, writeFlushCounter := BURST,
       writeBufferOffset := s.writeBufferOffset[t := if last then 0 else offset + BURST * 8],
       bursts := s.bursts + [t], starts := s.starts + [offset + PAGE_BYTES * t],
       readDone := if last then s.readDone + [t] else s.readDone)
  }

  function FeedWord(s: State): State
    requires Shaped(s) && s.writeFlushCounter > 0 && s.writeBuffer[s.writeFlushTag] != []
  {
    var t := s.writeFlushTag;
    s.(writeBuffer := s.writeBuffer[t := s.writeBuffer[t][1..]],
       writeFlushCounter := s.writeFlushCounter - 1,
       fed := s.fed + [s.writeBuffer[t][0]])
  }

  /** One rule or method; nothing happens when it may not fire. */
  function Step(s: State, e: Event): (r: State)
    requires Shaped(s)
    ensures Shaped(r)
  {
    if !Enabled(s, e) then s else
    match e
    case WriteWord(data, t) => AcceptWord(s, data, t)
    case StartWriteFlush => StartBurst(s)
    case DriveWriteFlush => FeedWord(s)
    case EngineTake => s.(taken := s.taken + 1)
  }

  /** Every list of events is a run. */
  function Run(s: State, es: seq<Event>): (r: State)
    requires Shaped(s)
    ensures Shaped(r)
    decreases |es|
  {
    if es == [] then s else Run(Step(s, es[0]), es[1..])
  }

  function Count(t: nat, q: seq<nat>): nat {
    if q == [] then 0 else Count(t, q[..|q| - 1]) + (if q[|q| - 1] == t then 1 else 0)
  }

  lemma CountAppend(t: nat, q: seq<nat>, x: nat)
    ensures Count(t, q + [x]) == Count(t, q) + (if x == t then 1 else 0)
  {
    assert (q + [x])[..|q|] == q;
  }

  lemma {:induction false} CountTail(t: nat, q: seq<nat>)
    requires q != []
    ensures Count(t, q) == (if q[0] == t then 1 else 0) + Count(t, q[1..])
  {
    if |q| > 1 {
      CountTail(t, q[..|q| - 1]);
      assert q[1..][..|q| - 2] == q[..|q| - 1][1..];
    } else {
      assert q[..0] == [];
    }
  }

  // ----- where the engine puts the words -----

  datatype Write = Write(addr: int, data: bv64)

  /** The engine executes its start commands in order, each for one burst of words. */
  function Landing(s: State, k: nat): Write
    requires k < |s.fed| <= BURST * |s.starts|
  {
    Write(s.starts[k / BURST] + 8 * (k % BURST), s.fed[k])
  }

  /** The writes among the first `k` that belong to bursts of tag `t`, in order. */
  function WritesOf(s: State, t: nat, k: nat): seq<Write>
    requires k <= |s.fed| <= BURST * |s.starts| && |s.starts| == |s.bursts|
  {
    if k == 0 then []
    else WritesOf(s, t, k - 1) + (if s.bursts[(k - 1) / BURST] == t then [Landing(s, k - 1)] else [])
  }

  /** The byte the `w`-th word of tag `t` belongs at. */
  function Slot(t: nat, w: int): int {
    PAGE_BYTES * t + 8 * (w % PAGE_WORDS)
  }

  /** Where the words of a tag should go: in order through its page, over and over. */
  function Placed(t: nat, words: seq<bv64>): seq<Write> {
    seq(|words|, w requires 0 <= w < |words| => Write(Slot(t, w), words[w]))
  }

  /** How many words of tag `t` have left its buffer. */
  function Streamed(s: State, t: nat): int
    requires Shaped(s) && t < TAGS
  {
    |s.accepted[t]| - |s.writeBuffer[t]|
  }

  function InFlush(s: State, t: nat): nat {
    if s.writeFlushTag == t then s.writeFlushCounter else 0
  }

  /** The registers of one tag, as functions of what has been accepted and started. */
  ghost predicate Counted(s: State, t: nat)
    requires Shaped(s) && t < TAGS
  {
    && s.bufferedWriteCount[t] < BURST
    && |s.writeBuffer[t]| <= BUFFER_DEPTH
    && |s.writeBuffer[t]| == s.bufferedWriteCount[t] + BURST * Count(t, s.nextBurstQ) + InFlush(s, t)
    && Streamed(s, t) == BURST * Count(t, s.bursts) - InFlush(s, t)
    && s.writeBufferOffset[t] == BURST * 8 * (Count(t, s.bursts) % 64)
    && Count(t, s.readDone) == Count(t, s.bursts) / 64
  }

  /** The words of one tag: a prefix has been written to its page, the rest is in its buffer. */
  ghost predicate Delivered(s: State, t: nat)
    requires Recorded(s) && t < TAGS
  {
    && Streamed(s, t) >= 0
    && s.accepted[t][Streamed(s, t)..] == s.writeBuffer[t]
    && WritesOf(s, t, |s.fed|) == Placed(t, s.accepted[t][..Streamed(s, t)])
  }

  ghost predicate BurstStartsRight(s: State, b: nat)
    requires b < |s.starts| == |s.bursts|
  {
    s.starts[b] == PAGE_BYTES * s.bursts[b] + BURST * 8 * (Count(s.bursts[b], s.bursts[..b]) % 64)
  }

  ghost predicate Recorded(s: State) {
    && Shaped(s)
    && |s.starts| == |s.bursts|
    && |s.fed| + s.writeFlushCounter == BURST * |s.starts|
    && s.writeFlushCounter <= BURST
  }

  ghost predicate Inv(s: State) {
    && Recorded(s)
    && |s.nextBurstQ| <= BURST_QUEUE_DEPTH
    && |s.fed| - s.taken <= WRITE_FIFO_DEPTH
    && (s.writeFlushCounter > 0 ==> s.bursts[|s.bursts| - 1] == s.writeFlushTag)
    && (forall b {:trigger BurstStartsRight(s, b)} :: 0 <= b < |s.bursts| ==> BurstStartsRight(s, b))
    && forall t {:trigger Counted(s, t)} {:trigger Delivered(s, t)} :: 0 <= t < TAGS ==>
         Counted(s, t) && Delivered(s, t)
  }

  // ----- every run keeps the invariant -----

  /** The record only grows, and the writes already determined stay what they are. */
  lemma {:induction false} WritesOfKept(s: State, r: State, t: nat, k: nat)
    requires k <= |s.fed| <= BURST * |s.starts| && |s.starts| == |s.bursts|
    requires |r.fed| <= BURST * |r.starts| && |r.starts| == |r.bursts|
    requires s.fed <= r.fed && s.starts <= r.starts && s.bursts <= r.bursts
    ensures WritesOf(s, t, k) == WritesOf(r, t, k)
  {
    if k > 0 {
      WritesOfKept(s, r, t, k - 1);
    }
  }

  /** A word put at the end of both keeps the buffer the end of what was accepted. */
  lemma SuffixGrows(words: seq<bv64>, buffer: seq<bv64>, n: nat, data: bv64)
    requires n <= |words| && words[n..] == buffer
    ensures (words + [data])[n..] == buffer + [data] && (words + [data])[..n] == words[..n]
  {
  }

  lemma AcceptKeepsCounted(s: State, data: bv64, t: nat, u: nat)
    requires Recorded(s) && t < TAGS && u < TAGS && |s.writeBuffer[t]| < BUFFER_DEPTH
    requires Counted(s, u)
    ensures Counted(AcceptWord(s, data, t), u)
  {
    CountAppend(u, s.nextBurstQ, t);
  }

  lemma AcceptKeepsDelivered(s: State, data: bv64, t: nat, u: nat)
    requires Recorded(s) && t < TAGS && u < TAGS && Delivered(s, u)
    ensures Delivered(AcceptWord(s, data, t), u)
  {
    var r := AcceptWord(s, data, t);
    WritesOfKept(s, r, u, |s.fed|);
    SuffixGrows(s.accepted[u], s.writeBuffer[u], Streamed(s, u), data);
    assert Streamed(r, u) == Streamed(s, u);
  }

  lemma AcceptKeepsInv(s: State, data: bv64, t: nat)
    requires Inv(s) && Enabled(s, WriteWord(data, t))
    ensures Inv(AcceptWord(s, data, t))
  {
    forall u | 0 <= u < TAGS
      ensures Counted(AcceptWord(s, data, t), u) && Delivered(AcceptWord(s, data, t), u)
    {
      AcceptKeepsCounted(s, data, t, u);
      AcceptKeepsDelivered(s, data, t, u);
    }
    var r := AcceptWord(s, data, t);
    forall b | 0 <= b < |r.bursts|
      ensures BurstStartsRight(r, b)
    {
      assert BurstStartsRight(s, b);
    }
  }

  lemma OffsetAdvances(c: nat, offset: nat)
    requires offset == BURST * 8 * (c % 64)
    ensures var last := offset + BURST * 8 >= PAGE_BYTES;
            && (c + 1) / 64 == c / 64 + (if last then 1 else 0)
            && BURST * 8 * ((c + 1) % 64) == if last then 0 else offset + BURST * 8
  {
  }

  /** What starting a burst changes in the registers of its tag keeps them right. */
  lemma CountedThen(s: State, r: State, t: nat, c: nat, offset: nat)
    requires Shaped(s) && Shaped(r) && t < TAGS && s.writeFlushCounter == 0 && Counted(s, t)
    requires c == Count(t, s.bursts) && offset == s.writeBufferOffset[t]
    requires r.writeBuffer == s.writeBuffer && r.accepted == s.accepted && r.bufferedWriteCount == s.bufferedWriteCount
    requires r.writeFlushTag == t && r.writeFlushCounter == BURST
    requires Count(t, s.nextBurstQ) == 1 + Count(t, r.nextBurstQ) && Count(t, r.bursts) == c + 1
    requires var last := offset + BURST * 8 >= PAGE_BYTES;
             && r.writeBufferOffset[t] == (if last then 0 else offset + BURST * 8)
             && Count(t, r.readDone) == Count(t, s.readDone) + if last then 1 else 0
    ensures Counted(r, t)
  {
    OffsetAdvances(c, offset);
    assert InFlush(s, t) == 0 && InFlush(r, t) == BURST;
  }

  lemma StartChanges(s: State, r: State, t: nat, offset: nat)
    requires Shaped(s) && s.nextBurstQ != [] && t == s.nextBurstQ[0] && offset == s.writeBufferOffset[t]
    requires r == StartBurst(s)
    ensures r.writeBuffer == s.writeBuffer && r.accepted == s.accepted && r.bufferedWriteCount == s.bufferedWriteCount
    ensures Shaped(r) && r.writeFlushTag == t && r.writeFlushCounter == BURST
    ensures r.nextBurstQ == s.nextBurstQ[1..] && r.bursts == s.bursts + [t]
    ensures var last := offset + BURST * 8 >= PAGE_BYTES;
            && r.writeBufferOffset[t] == (if last then 0 else offset + BURST * 8)
            && r.readDone == if last then s.readDone + [t] else s.readDone
  {
  }

  lemma StartCountsOthers(s: State, u: nat)
    requires Recorded(s) && s.writeFlushCounter == 0 && s.nextBurstQ != [] && u < TAGS && u != s.nextBurstQ[0]
    requires Counted(s, u)
    ensures Counted(StartBurst(s), u)
  {
    CountTail(u, s.nextBurstQ);
    CountAppend(u, s.bursts, s.nextBurstQ[0]);
    CountAppend(u, s.readDone, s.nextBurstQ[0]);
    assert Streamed(StartBurst(s), u) == Streamed(s, u);
  }

  lemma StartKeepsDelivered(s: State, u: nat)
    requires Recorded(s) && s.writeFlushCounter == 0 && s.nextBurstQ != [] && u < TAGS
    requires Delivered(s, u)
    ensures Delivered(StartBurst(s), u)
  {
    WritesOfKept(s, StartBurst(s), u, |s.fed|);
  }

  lemma StartKeepsInv(s: State)
    requires Inv(s) && Enabled(s, StartWriteFlush)
    ensures Inv(StartBurst(s))
  {
    var r := StartBurst(s);
    forall u | 0 <= u < TAGS
      ensures Counted(r, u) && Delivered(r, u)
    {
      if u == s.nextBurstQ[0] {
        CountTail(u, s.nextBurstQ);
        CountAppend(u, s.bursts, u);
        CountAppend(u, s.readDone, u);
        StartChanges(s, r, u, s.writeBufferOffset[u]);
        CountedThen(s, r, u, Count(u, s.bursts), s.writeBufferOffset[u]);
      } else {
        StartCountsOthers(s, u);
      }
      StartKeepsDelivered(s, u);
    }
    assert Counted(s, s.nextBurstQ[0]);
    forall b | 0 <= b < |r.bursts|
      ensures BurstStartsRight(r, b)
    {
      assert r.bursts[..b] == s.bursts[..b];
      assert b < |s.bursts| ==> BurstStartsRight(s, b);
      assert s.bursts[..|s.bursts|] == s.bursts;
    }
  }

  lemma Remainder(w: nat, q: nat, v: nat)
    requires w == PAGE_WORDS * q + v && v < PAGE_WORDS
    ensures w % PAGE_WORDS == v
  {
  }

  /** The word `left` short of the end of burst number `c - 1` of its tag, counted from the tag's first word. */
  lemma WordOffset(c: nat, left: nat)
    requires 0 < left <= BURST && c > 0
    ensures 8 * ((BURST * c - left) % PAGE_WORDS) == BURST * 8 * ((c - 1) % 64) + 8 * (BURST - left)
  {
    var w := BURST * c - left;
    var q, v := (c - 1) / 64, BURST * ((c - 1) % 64) + (BURST - left);
    assert c - 1 == 64 * q + (c - 1) % 64;
    assert w == PAGE_WORDS * q + v && 0 <= v < PAGE_WORDS;
    Remainder(w, q, v);
  }

  /** The word fed next belongs to the flushed tag and goes where the tag's next word should go. */
  lemma FeedLands(s: State)
    requires Recorded(s) && 0 < s.writeFlushCounter <= BURST
    requires var b := |s.bursts| - 1; s.bursts[b] == s.writeFlushTag && BurstStartsRight(s, b)
    requires Counted(s, s.writeFlushTag)
    ensures var t, k := s.writeFlushTag, |s.fed|;
            && s.bursts[k / BURST] == t
            && s.starts[k / BURST] + 8 * (k % BURST) == Slot(t, Streamed(s, t))
  {
    var t, k, b := s.writeFlushTag, |s.fed|, |s.bursts| - 1;
    assert s.bursts == s.bursts[..b] + [t];
    CountAppend(t, s.bursts[..b], t);
    WordOffset(Count(t, s.bursts), s.writeFlushCounter);
    assert k == BURST * b + (BURST - s.writeFlushCounter);
    assert k / BURST == b && k % BURST == BURST - s.writeFlushCounter;
  }

  lemma PlacedGrows(t: nat, words: seq<bv64>, n: nat)
    requires n < |words|
    ensures Placed(t, words[..n + 1]) == Placed(t, words[..n]) + [Write(Slot(t, n), words[n])]
  {
  }

  lemma FeedKeepsTag(s: State, u: nat)
    requires Recorded(s) && Enabled(s, DriveWriteFlush) && u < TAGS
    requires Counted(s, u) && Delivered(s, u)
    requires s.bursts[|s.fed| / BURST] == s.writeFlushTag
    requires Landing(FeedWord(s), |s.fed|).addr ==
             Slot(s.writeFlushTag, Streamed(s, s.writeFlushTag))
    ensures Counted(FeedWord(s), u) && Delivered(FeedWord(s), u)
  {
    var r := FeedWord(s);
    var n := Streamed(s, u);
    assert Counted(r, u);
    WritesOfKept(s, r, u, |s.fed|);
    if u == s.writeFlushTag {
      assert s.accepted[u][n] == s.accepted[u][n..][0];
      PlacedGrows(u, s.accepted[u], n);
      assert r.accepted[u][n + 1..] == s.accepted[u][n..][1..];
    }
  }

  lemma FeedKeepsInv(s: State)
    requires Inv(s) && Enabled(s, DriveWriteFlush)
    ensures Inv(FeedWord(s))
  {
    var r := FeedWord(s);
    FeedLands(s);
    forall u | 0 <= u < TAGS
      ensures Counted(r, u) && Delivered(r, u)
    {
      FeedKeepsTag(s, u);
    }
    forall b | 0 <= b < |r.bursts|
      ensures BurstStartsRight(r, b)
    {
      assert BurstStartsRight(s, b);
    }
  }

  lemma TakeKeepsDelivered(s: State, u: nat)
    requires Recorded(s) && Enabled(s, EngineTake) && u < TAGS && Delivered(s, u)
    ensures Delivered(Step(s, EngineTake), u)
  {
    WritesOfKept(s, Step(s, EngineTake), u, |s.fed|);
  }

  lemma TakeKeepsInv(s: State)
    requires Inv(s) && Enabled(s, EngineTake)
    ensures Inv(Step(s, EngineTake))
  {
    var r := Step(s, EngineTake);
    forall u | 0 <= u < TAGS
      ensures Counted(r, u) && Delivered(r, u)
    {
      TakeKeepsDelivered(s, u);
    }
    forall b | 0 <= b < |r.bursts|
      ensures BurstStartsRight(r, b)
    {
      assert BurstStartsRight(s, b);
    }
  }

  lemma StepKeepsInv(s: State, e: Event)
    requires Inv(s)
    ensures Inv(Step(s, e))
  {
    if Enabled(s, e) {
      match e
      case WriteWord(data, t) => AcceptKeepsInv(s, data, t);
      case StartWriteFlush => StartKeepsInv(s);
      case DriveWriteFlush => FeedKeepsInv(s);
      case EngineTake => TakeKeepsInv(s);
    }
  }

  lemma InitialInv()
    ensures Inv(Initial())
  {
    var s := Initial();
    forall u | 0 <= u < TAGS
      ensures Counted(s, u) && Delivered(s, u)
    {
      assert s.accepted[u] == [];
    }
  }

  lemma {:induction false} RunKeepsInv(s: State, es: seq<Event>)
    requires Inv(s)
    ensures Inv(Run(s, es))
    decreases |es|
  {
    if es != [] {
      StepKeepsInv(s, es[0]);
      RunKeepsInv(Step(s, es[0]), es[1..]);
    }
  }

  lemma ReachedInv(es: seq<Event>)
    ensures Inv(Run(Initial(), es))
  {
    InitialInv();
    RunKeepsInv(Initial(), es);
  }

  lemma InvAt(s: State, t: nat)
    requires Inv(s) && t < TAGS
    ensures Counted(s, t) && Delivered(s, t)
  {
  }

  // ----- what every run guarantees -----

  /** The words the calls of writeWord bring for tag `t`: those of the calls that may come when they do. */
  function Offered(s: State, es: seq<Event>, t: nat): seq<bv64>
    requires Shaped(s)
    decreases |es|
  {
    if es == [] then [] else
    (match es[0]
     case WriteWord(data, u) => if u == t && Enabled(s, es[0]) then [data] else []
     case _ => [])
    + Offered(Step(s, es[0]), es[1..], t)
  }

  /** What is accepted of a tag is what is offered of it. */
  lemma {:induction false} AcceptedIsOffered(s: State, es: seq<Event>, t: nat)
    requires Shaped(s) && t < TAGS
    ensures Run(s, es).accepted[t] == s.accepted[t] + Offered(s, es, t)
    decreases |es|
  {
    if es != [] {
      AcceptedIsOffered(Step(s, es[0]), es[1..], t);
    }
  }

  lemma AllOffered(s: State, es: seq<Event>, t: nat)
    requires Shaped(s) && t < TAGS && s.accepted[t] == []
    ensures Run(s, es).accepted[t] == Offered(s, es, t)
  {
    AcceptedIsOffered(s, es, t);
    assert [] + Offered(s, es, t) == Offered(s, es, t);
  }

  /** The words of tag `t` that have left its buffer were written in order through the tag's own page, the `w`-th
      of them to byte `8192 t + 8 (w mod 1024)`, and the others are in the buffer. */
  ghost predicate WordsLanded(s: State, t: nat, words: seq<bv64>)
    requires Shaped(s) && t < TAGS
  {
    && Recorded(s)
    && 0 <= Streamed(s, t) <= |words|
    && WritesOf(s, t, |s.fed|) == Placed(t, words[..Streamed(s, t)])
    && words == words[..Streamed(s, t)] + s.writeBuffer[t]
  }

  lemma AcceptedLand(s: State, t: nat)
    requires Inv(s) && t < TAGS
    ensures WordsLanded(s, t, s.accepted[t])
  {
    InvAt(s, t);
  }

  /** In every run the words landed for each tag are those offered for it. */
  lemma WordsLandInOrder(es: seq<Event>, t: nat)
    requires t < TAGS
    ensures WordsLanded(Run(Initial(), es), t, Offered(Initial(), es, t))
  {
    ReachedInv(es);
    AllOffered(Initial(), es, t);
    AcceptedLand(Run(Initial(), es), t);
  }

  /** In every run each burst stays inside the page of its tag and starts where the tag's bursts so far
      end; the register that says where the next one starts agrees; and pageReadDone has been raised
      once for every 64 bursts of the tag. */
  lemma BurstsStayInPage(es: seq<Event>)
    ensures var s := Run(Initial(), es);
            && |s.starts| == |s.bursts|
            && (forall b :: 0 <= b < |s.starts| ==>
                 && BurstStartsRight(s, b)
                 && PAGE_BYTES * s.bursts[b] <= s.starts[b]
                 && s.starts[b] + 8 * BURST <= PAGE_BYTES * (s.bursts[b] + 1))
            && forall t :: 0 <= t < TAGS ==>
                 && s.writeBufferOffset[t] == BURST * 8 * (Count(t, s.bursts) % 64)
                 && Count(t, s.readDone) == Count(t, s.bursts) / 64
  {
    ReachedInv(es);
    var s := Run(Initial(), es);
    forall t | 0 <= t < TAGS
      ensures s.writeBufferOffset[t] == BURST * 8 * (Count(t, s.bursts) % 64)
      ensures Count(t, s.readDone) == Count(t, s.bursts) / 64
    {
      InvAt(s, t);
    }
  }

  /** In every run the buffer of a tag holds its partial burst, 16 words for each of its tokens in the
      queue, and what is left of its burst in flush; so a flush never waits on an empty buffer. */
  lemma BuffersAccountedFor(es: seq<Event>, t: nat)
    requires t < TAGS
    ensures var s := Run(Initial(), es);
            && |s.writeBuffer[t]| == s.bufferedWriteCount[t] + BURST * Count(t, s.nextBurstQ) + InFlush(s, t)
            && s.bufferedWriteCount[t] < BURST
            && (s.writeFlushCounter > 0 ==> s.writeBuffer[s.writeFlushTag] != [])
  {
    ReachedInv(es);
    var s := Run(Initial(), es);
    InvAt(s, t);
    InvAt(s, s.writeFlushTag);
  }

  // ----- no wedge -----

  predicate IsFlush(e: Event) {
    e.StartWriteFlush? || e.DriveWriteFlush?
  }

  /** A flush step always lowers this. */
  function FlushMeasure(s: State): nat {
    17 * |s.nextBurstQ| + s.writeFlushCounter
  }

  lemma FlushLowersMeasure(s: State, e: Event)
    requires Inv(s) && IsFlush(e) && Enabled(s, e)
    ensures FlushMeasure(Step(s, e)) < FlushMeasure(s)
  {
  }

  lemma {:induction false} CountPositive(t: nat, q: seq<nat>)
    requires Count(t, q) > 0
    ensures q != []
  {
  }

  /** The start commands the engine has not yet finished. */
  function Outstanding(s: State): int {
    |s.starts| - s.taken / BURST
  }

  /** A producer held up by a full buffer or a full token queue is not stuck, whatever number of
      commands the engine can queue: a burst may start and the engine has room for its command, or a
      word may be fed, or else the engine has both a word and a command for it. */
  lemma NeverWedged(es: seq<Event>, t: nat, commands: nat)
    requires t < TAGS && commands > 0
    ensures var s := Run(Initial(), es);
            |s.writeBuffer[t]| == BUFFER_DEPTH || |s.nextBurstQ| == BURST_QUEUE_DEPTH ==>
            || (Enabled(s, StartWriteFlush) && Outstanding(s) < commands)
            || Enabled(s, DriveWriteFlush)
            || (Enabled(s, EngineTake) && Outstanding(s) > 0)
  {
    ReachedInv(es);
    var s := Run(Initial(), es);
    InvAt(s, t);
    InvAt(s, s.writeFlushTag);
    if s.writeFlushCounter == 0 && |s.writeBuffer[t]| == BUFFER_DEPTH {
      CountPositive(t, s.nextBurstQ);
    }
  }

  /** The flush and engine steps left when no more words arrive. */
  function Work(s: State): nat
    requires s.taken <= |s.fed|
  {
    33 * |s.nextBurstQ| + 2 * s.writeFlushCounter + |s.fed| - s.taken
  }

  /** While there is any, one of them may fire; a burst starts only with the engine idle. */
  lemma NextFlush(s: State) returns (e: Event)
    requires Inv(s) && Work(s) > 0
    ensures !e.WriteWord? && Enabled(s, e) && (e.StartWriteFlush? ==> Outstanding(s) == 0)
    ensures Work(Step(s, e)) == Work(s) - 1 && Step(s, e).accepted == s.accepted
  {
    InvAt(s, s.writeFlushTag);
    e := if s.taken < |s.fed| then EngineTake
         else if s.writeFlushCounter > 0 then DriveWriteFlush else StartWriteFlush;
  }

  /** With none left, the buffers hold partial bursts only. */
  lemma DrainedBuffers(s: State, t: nat)
    requires Inv(s) && Work(s) == 0 && t < TAGS
    ensures |s.writeBuffer[t]| == |s.accepted[t]| % BURST == s.bufferedWriteCount[t]
    ensures |s.accepted[t]| == BURST * Count(t, s.bursts) + |s.writeBuffer[t]|
  {
    InvAt(s, t);
  }

  /** Without new words, exactly that many steps empty the token queue, the flush engine and its FIFO,
      and leave only partial bursts in the buffers. */
  lemma {:induction false} Drains(s: State) returns (es: seq<Event>)
    requires Inv(s)
    ensures |es| == Work(s) && forall k :: 0 <= k < |es| ==> !es[k].WriteWord?
    ensures var r := Run(s, es);
            && Inv(r)
            && r.nextBurstQ == [] && r.writeFlushCounter == 0 && r.taken == |r.fed|
            && r.accepted == s.accepted
            && forall t :: 0 <= t < TAGS ==> |r.writeBuffer[t]| == |r.accepted[t]| % BURST
    decreases Work(s)
  {
    if Work(s) == 0 {
      es := [];
      forall t | 0 <= t < TAGS
        ensures |s.writeBuffer[t]| == |s.accepted[t]| % BURST
      {
        DrainedBuffers(s, t);
      }
    } else {
      var e := NextFlush(s);
      StepKeepsInv(s, e);
      var rest := Drains(Step(s, e));
      es := [e] + rest;
    }
  }
}
