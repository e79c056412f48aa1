/**
 What the write path of flashemul/Interface.bsv leaves in host memory: which
 word every byte of the page buffers holds, and when a page is there whole.
 */
module BurstMemory {
  import opened BurstPath

  /** Host memory after the first `k` words have been written. */
  function Memory(s: State, k: nat): map<int, bv64>
    requires k <= |s.fed| <= BURST * |s.starts|
  {
    if k == 0 then map[] else Memory(s, k - 1)[Landing(s, k - 1).addr := Landing(s, k - 1).data]
  }

  /** Which of its tag's words was written last to an address. */
  function Latest(s: State, k: nat): map<int, nat>
    requires k <= |s.fed| <= BURST * |s.starts| && |s.starts| == |s.bursts|
  {
    if k == 0 then map[]
    else Latest(s, k - 1)[Landing(s, k - 1).addr := |WritesOf(s, s.bursts[(k - 1) / BURST], k - 1)|]
  }

  lemma {:induction false} WritesOfPrefix(s: State, t: nat, k: nat, j: nat)
    requires k <= j <= |s.fed| <= BURST * |s.starts| && |s.starts| == |s.bursts|
    ensures WritesOf(s, t, k) <= WritesOf(s, t, j)
  {
    if k < j {
      WritesOfPrefix(s, t, k, j - 1);
    }
  }

  /** The `k`-th word written, as a word of its tag. */
  lemma LandsAsPlaced(s: State, k: nat, u: nat)
    requires Recorded(s) && k < |s.fed| && u < TAGS && Delivered(s, u)
    requires u == s.bursts[k / BURST]
    ensures var m := |WritesOf(s, u, k)|;
            && m < |s.accepted[u]|
            && Landing(s, k) == Write(Slot(u, m), s.accepted[u][m])
  {
    var m := |WritesOf(s, u, k)|;
    WritesOfPrefix(s, u, k + 1, |s.fed|);
    assert WritesOf(s, u, k + 1)[m] == Landing(s, k);
    assert WritesOf(s, u, |s.fed|)[m] == Landing(s, k);
  }

  lemma SlotsDiffer(t: nat, w: nat, u: nat, m: nat)
    requires t != u || (w < m < w + PAGE_WORDS)
    ensures Slot(t, w) != Slot(u, m)
  {
  }

  /** What the slot of word `w` of tag `t` holds, of the first `k` words written, is that word. */
  ghost predicate Held(s: State, k: nat, t: nat, w: nat)
    requires Recorded(s) && k <= |s.fed| && t < TAGS
  {
    && w < |s.accepted[t]|
    && Slot(t, w) in Latest(s, k) && Latest(s, k)[Slot(t, w)] == w
    && Slot(t, w) in Memory(s, k) && Memory(s, k)[Slot(t, w)] == s.accepted[t][w]
  }

  lemma HeldWhenWritten(s: State, k: nat, t: nat)
    requires Recorded(s) && k < |s.fed| && t < TAGS && Delivered(s, t)
    requires t == s.bursts[k / BURST]
    ensures Held(s, k + 1, t, |WritesOf(s, t, k)|)
  {
    LandsAsPlaced(s, k, t);
  }

  /** Writing one more word leaves every other word still due in its slot where it is. */
  lemma HeldAfterwards(s: State, k: nat, t: nat, w: nat, u: nat)
    requires Recorded(s) && k < |s.fed| && t < TAGS && u < TAGS && Delivered(s, u) && u == s.bursts[k / BURST]
    requires u != t || w < |WritesOf(s, t, k)| < w + PAGE_WORDS
    requires Held(s, k, t, w)
    ensures Held(s, k + 1, t, w)
  {
    LandsAsPlaced(s, k, u);
    SlotsDiffer(t, w, u, |WritesOf(s, u, k)|);
  }

  /** A written word stays in its slot until 1024 more words of its tag have been written. */
  lemma {:induction false} MemoryHolds(s: State, k: nat, t: nat, w: nat)
    requires Inv(s) && k <= |s.fed| && t < TAGS
    requires w < |WritesOf(s, t, k)| <= w + PAGE_WORDS
    ensures Held(s, k, t, w)
    decreases k
  {
    var u := s.bursts[(k - 1) / BURST];
    InvAt(s, u);
    if u == t && w == |WritesOf(s, t, k - 1)| {
      HeldWhenWritten(s, k - 1, t);
    } else {
      MemoryHolds(s, k - 1, t, w);
      HeldAfterwards(s, k - 1, t, w, u);
    }
  }

  /** No slot holds a word that has not been written. */
  lemma {:induction false} LatestWritten(s: State, k: nat, t: nat, w: nat)
    requires Inv(s) && k <= |s.fed| && t < TAGS && Slot(t, w) in Latest(s, k)
    ensures Latest(s, k)[Slot(t, w)] < |WritesOf(s, t, k)|
    decreases k
  {
    var u := s.bursts[(k - 1) / BURST];
    InvAt(s, u);
    LandsAsPlaced(s, k - 1, u);
    if Landing(s, k - 1).addr != Slot(t, w) {
      LatestWritten(s, k - 1, t, w);
    } else if u != t {
      SlotsDiffer(t, w, u, |WritesOf(s, u, k - 1)|);
    }
  }

  /** The last word so far that shares the slot of word `w`. */
  lemma Successor(t: nat, w: nat, n: nat) returns (j: nat)
    requires n > w + PAGE_WORDS
    ensures w < j < n <= j + PAGE_WORDS && Slot(t, j) == Slot(t, w)
  {
    var q := (n - 1 - w) / PAGE_WORDS;
    j := w + PAGE_WORDS * q;
  }

  /** A slot holds a word if and only if it has been written and fewer than 1024 of its tag's have since. */
  lemma HeldIff(s: State, k: nat, t: nat, w: nat)
    requires Inv(s) && k <= |s.fed| && t < TAGS
    ensures Held(s, k, t, w) <==> w < |WritesOf(s, t, k)| <= w + PAGE_WORDS
  {
    if w < |WritesOf(s, t, k)| <= w + PAGE_WORDS {
      MemoryHolds(s, k, t, w);
    } else if Held(s, k, t, w) {
      LatestWritten(s, k, t, w);
      var j := Successor(t, w, |WritesOf(s, t, k)|);
      MemoryHolds(s, k, t, j);
    }
  }

  /** Word `i` of the page buffer of tag `t` is word `i` of the tag's `p`-th page. */
  ghost predicate WordInPlace(s: State, t: nat, p: nat, i: nat)
    requires Recorded(s) && t < TAGS && p > 0
  {
    var addr, w := PAGE_BYTES * t + 8 * i, PAGE_WORDS * (p - 1) + i;
    && w < |s.accepted[t]|
    && addr in Latest(s, s.taken) && Latest(s, s.taken)[addr] == w
    && addr in Memory(s, s.taken) && Memory(s, s.taken)[addr] == s.accepted[t][w]
  }

  lemma InPlaceIsHeld(s: State, t: nat, p: nat, i: nat)
    requires Recorded(s) && t < TAGS && p > 0 && i < PAGE_WORDS
    ensures WordInPlace(s, t, p, i) <==> Held(s, s.taken, t, PAGE_WORDS * (p - 1) + i)
  {
    assert Slot(t, PAGE_WORDS * (p - 1) + i) == PAGE_BYTES * t + 8 * i;
  }

  /** The page buffer of tag `t` holds the tag's `p`-th page, word for word. */
  ghost predicate PageInMemory(s: State, t: nat, p: nat)
    requires Recorded(s) && t < TAGS && p > 0
  {
    forall i: nat {:trigger WordInPlace(s, t, p, i)} | i < PAGE_WORDS :: WordInPlace(s, t, p, i)
  }

  /** It does if and only if exactly the words up to the end of that page have been written. */
  lemma PageWhole(s: State, t: nat, p: nat)
    requires Inv(s) && t < TAGS && p > 0
    ensures PageInMemory(s, t, p) <==> |WritesOf(s, t, s.taken)| == PAGE_WORDS * p
  {
    forall i: nat | i < PAGE_WORDS
      ensures var w := PAGE_WORDS * (p - 1) + i;
              WordInPlace(s, t, p, i) <==> w < |WritesOf(s, t, s.taken)| <= w + PAGE_WORDS
    {
      InPlaceIsHeld(s, t, p, i);
      HeldIff(s, s.taken, t, PAGE_WORDS * (p - 1) + i);
    }
    if PageInMemory(s, t, p) {
      assert WordInPlace(s, t, p, 0) && WordInPlace(s, t, p, PAGE_WORDS - 1);
    }
  }

  // ----- an announced page -----

  predicate Carries(s: State, k: nat, t: nat)
    requires k < |s.fed| <= BURST * |s.bursts|
  {
    s.bursts[k / BURST] == t
  }

  /** No word of tag `t` is in the engine's FIFO. */
  ghost predicate NoneWaiting(s: State, t: nat)
    requires Recorded(s)
  {
    forall k {:trigger Carries(s, k, t)} :: s.taken <= k < |s.fed| ==> !Carries(s, k, t)
  }

  lemma {:induction false} NoneBetween(s: State, t: nat, k: nat, j: nat)
    requires k <= j <= |s.fed| <= BURST * |s.starts| && |s.starts| == |s.bursts|
    ensures |WritesOf(s, t, k)| <= |WritesOf(s, t, j)|
    ensures |WritesOf(s, t, k)| == |WritesOf(s, t, j)| <==>
            forall i {:trigger Carries(s, i, t)} :: k <= i < j ==> !Carries(s, i, t)
  {
    if k < j {
      NoneBetween(s, t, k, j - 1);
      assert Carries(s, j - 1, t) <==> s.bursts[(j - 1) / BURST] == t;
    }
  }

  /** While no further burst of a tag has started, its last announced page is in memory if and only if
      none of its words is still in flush or in the engine's FIFO. */
  lemma AnnouncedInMemoryIff(s: State, t: nat)
    requires Inv(s) && t < TAGS && s.writeBufferOffset[t] == 0 && Count(t, s.readDone) > 0
    ensures PageInMemory(s, t, Count(t, s.readDone)) <==> InFlush(s, t) == 0 && NoneWaiting(s, t)
  {
    InvAt(s, t);
    PageWhole(s, t, Count(t, s.readDone));
    NoneBetween(s, t, s.taken, |s.fed|);
    assert Count(t, s.bursts) == 64 * Count(t, s.readDone);
    assert |WritesOf(s, t, |s.fed|)| == Streamed(s, t) == PAGE_WORDS * Count(t, s.readDone) - InFlush(s, t);
  }

  /** A page is never whole in memory when it is announced: its last burst at least is missing. */
  lemma AnnouncedTooEarly(s: State)
    requires Inv(s) && Enabled(s, StartWriteFlush) && StartBurst(s).readDone != s.readDone
    ensures var r := StartBurst(s);
            var t := r.writeFlushTag;
            && Inv(r) && t < TAGS && r.readDone == s.readDone + [t] && Count(t, r.readDone) > 0
            && |WritesOf(r, t, r.taken)| + BURST <= PAGE_WORDS * Count(t, r.readDone)
            && !PageInMemory(r, t, Count(t, r.readDone))
  {
    StartKeepsInv(s);
    var r := StartBurst(s);
    var t := r.writeFlushTag;
    InvAt(r, t);
    CountAppend(t, s.readDone, t);
    AnnouncedAt(r, t);
    PageWhole(r, t, Count(t, r.readDone));
  }

  lemma AnnouncedAt(r: State, t: nat)
    requires Recorded(r) && t < TAGS && Counted(r, t) && Delivered(r, t)
    requires r.writeBufferOffset[t] == 0 && InFlush(r, t) == BURST
    ensures |WritesOf(r, t, r.taken)| + BURST <= PAGE_WORDS * Count(t, r.readDone)
  {
    NoneBetween(r, t, r.taken, |r.fed|);
    assert Count(t, r.bursts) == 64 * Count(t, r.readDone);
    assert |WritesOf(r, t, |r.fed|)| == Streamed(r, t);
  }
}
