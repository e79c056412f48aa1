/**
 The searcher of mp.h as an automaton: its result for any table whose links
 descend, and what it means when the table is right for the pattern.
 */
module MorrisPrattSearch {
  import opened Borders
  import opened MorrisPrattTables

  /** A table the searcher can follow: every link leads strictly down. */
  ghost predicate Descends(next: seq<int>, m: nat) {
    |next| > m + 1 && forall i :: 1 <= i <= m + 1 ==> 0 <= next[i] < i
  }

  /** Where the inner loop stops when it starts at `i` and the text shows `c`. */
  ghost function Fall(x: seq<char>, next: seq<int>, i: nat, c: char): (f: nat)
    requires Descends(next, |x|) && i <= |x| + 1
    ensures f <= i && f <= |x|
    decreases i
  {
    if i == 0 then 0
    else if i == |x| + 1 || x[i - 1] != c then Fall(x, next, next[i], c)
    else i
  }

  /** `i` as in the code, and the offsets reported so far. */
  datatype Scan = Scan(i: nat, hits: seq<nat>)

  /** The state after reading `c` as the `n`-th character. */
  ghost function Advance(x: seq<char>, next: seq<int>, s: Scan, c: char, n: nat): (r: Scan)
    requires Descends(next, |x|) && s.i <= |x| + 1 && s.i <= n
    ensures 1 <= r.i <= n + 1 && r.i <= |x| + 1 && (|x| > 0 ==> r.i <= |x|)
  {
    var i := Fall(x, next, s.i, c) + 1;
    if i == |x| + 1 then Scan(1, s.hits + [n - |x|]) else Scan(i, s.hits)
  }

  /** The state of the searcher after the first `n` characters of `t`. */
  ghost function Search(x: seq<char>, next: seq<int>, t: seq<char>, n: nat): (s: Scan)
    requires Descends(next, |x|) && n <= |t|
    ensures 1 <= s.i <= n + 1 && s.i <= |x| + 1 && (|x| > 0 ==> s.i <= |x|)
  {
    if n == 0 then Scan(1, []) else Advance(x, next, Search(x, next, t, n - 1), t[n - 1], n)
  }

  /** MP: `matchCnt` is the value behind the pointer on entry, `matchCnt'` on exit; `reported`
      are the logged positions; `steps` counts the iterations of the inner loop. */
  method MP(x: seq<char>, t: seq<char>, mpNext: array<int>, m: nat, n: nat, matchCnt: int)
    returns (matchCnt': int, reported: seq<nat>, ghost steps: nat)
    requires m <= |x| && n <= |t| && Descends(mpNext[..], m)
    ensures reported == Search(x[..m], mpNext[..], t, n).hits
    ensures m > 0 && NextCorrect(x[..m], mpNext[..]) ==> Greedy(x[..m], t[..n], reported)
    ensures matchCnt' == matchCnt + |reported|
    ensures steps <= n
  {
    ghost var p, next := x[..m], mpNext[..];
    var i, j := 1, 1;
    matchCnt', reported, steps := matchCnt, [], 0;
    while j <= n
      invariant 1 <= i && 1 <= j <= n + 1
      invariant Search(p, next, t, j - 1) == Scan(i, reported)
      invariant matchCnt' == matchCnt + |reported|
      invariant steps + i <= j
    {
      ghost var i0 := i;
      while i == m + 1 || (i > 0 && x[i - 1] != t[j - 1])
        invariant 0 <= i <= m + 1
        invariant Fall(p, next, i, t[j - 1]) == Fall(p, next, i0, t[j - 1])
        invariant steps + i <= j
        decreases i
      {
        i := mpNext[i];
        steps := steps + 1;
      }
      i := i + 1;
      j := j + 1;
      if i == m + 1 {
        reported := reported + [j - i];
        i := 1;
        matchCnt' := matchCnt' + 1;
      }
    }
    if m > 0 && NextCorrect(p, next) {
      SearchIsGreedy(p, next, t, n);
    }
  }

  predicate Occurs(x: seq<char>, t: seq<char>, p: nat) {
    p + |x| <= |t| && t[p..p + |x|] == x
  }

  predicate Overlaps(h: nat, p: nat, m: nat) {
    h < p < h + m
  }

  /** The leftmost, greedy choice of non-overlapping occurrences: only occurrences are reported,
      in order and apart, and an occurrence is passed over only when an earlier report overlaps it. */
  ghost predicate Greedy(x: seq<char>, t: seq<char>, hits: seq<nat>) {
    && (forall k :: 0 <= k < |hits| ==> Occurs(x, t, hits[k]))
    && Apart(hits, |x|)
    && forall p: nat | Occurs(x, t, p) :: Covered(hits, |x|, p)
  }

  ghost predicate Apart(hits: seq<nat>, m: nat) {
    forall k {:trigger ApartAt(hits, m, k)} :: 1 <= k < |hits| ==> ApartAt(hits, m, k)
  }

  predicate ApartAt(hits: seq<nat>, m: nat, k: nat)
    requires 1 <= k < |hits|
  {
    hits[k - 1] + m <= hits[k]
  }

  ghost predicate Covered(hits: seq<nat>, m: nat, p: nat) {
    p in hits || exists k :: 0 <= k < |hits| && Overlaps(hits[k], p, m)
  }

  /** Reports grow by at least the pattern length from one to the next. */
  lemma {:induction false} ApartSpreads(hits: seq<nat>, m: nat, a: nat, b: nat)
    requires Apart(hits, m) && a <= b < |hits|
    ensures hits[a] <= hits[b] && (a < b ==> hits[a] + m <= hits[b])
    decreases b - a
  {
    if a < b {
      ApartSpreads(hits, m, a, b - 1);
      assert ApartAt(hits, m, b);
    }
  }

  lemma Coverer(hits: seq<nat>, m: nat, p: nat) returns (l: nat)
    requires m > 0 && Covered(hits, m, p)
    ensures l < |hits| && hits[l] <= p < hits[l] + m
  {
    if p in hits {
      l :| 0 <= l < |hits| && hits[l] == p;
    } else {
      l :| 0 <= l < |hits| && Overlaps(hits[l], p, m);
    }
  }

  /** No choice of non-overlapping occurrences keeps ahead of the greedy one ... */
  lemma {:induction false} GreedyStaysAhead(x: seq<char>, t: seq<char>, hits: seq<nat>, ps: seq<nat>, k: nat)
    requires |x| > 0 && Greedy(x, t, hits) && k < |ps|
    requires Apart(ps, |x|) && forall l :: 0 <= l < |ps| ==> Occurs(x, t, ps[l])
    ensures k < |hits| && hits[k] <= ps[k]
    decreases k
  {
    if k > 0 {
      GreedyStaysAhead(x, t, hits, ps, k - 1);
      assert ApartAt(ps, |x|, k);
    }
    assert Occurs(x, t, ps[k]);
    var l := Coverer(hits, |x|, ps[k]);
    if l < k {
      ApartSpreads(hits, |x|, l, k - 1);
      assert false;
    }
    ApartSpreads(hits, |x|, k, l);
  }

  /** ... so the count raised by the searcher is the largest one possible. */
  lemma GreedyIsLargest(x: seq<char>, t: seq<char>, hits: seq<nat>, ps: seq<nat>)
    requires |x| > 0 && Greedy(x, t, hits)
    requires Apart(ps, |x|) && forall l :: 0 <= l < |ps| ==> Occurs(x, t, ps[l])
    ensures |ps| <= |hits|
  {
    if |ps| > 0 {
      GreedyStaysAhead(x, t, hits, ps, |ps| - 1);
    }
  }

  /** There is only one greedy choice. */
  lemma GreedyUnique(x: seq<char>, t: seq<char>, a: seq<nat>, b: seq<nat>)
    requires |x| > 0 && Greedy(x, t, a) && Greedy(x, t, b)
    ensures a == b
  {
    GreedyIsLargest(x, t, a, b);
    GreedyIsLargest(x, t, b, a);
    forall k | 0 <= k < |a|
      ensures a[k] == b[k]
    {
      GreedyStaysAhead(x, t, a, b, k);
      GreedyStaysAhead(x, t, b, a, k);
    }
  }

  // ----- a table that is right for the pattern -----

  /** The `k` characters before position `n` of `t`, none of them before `base`, are `x[..k]`. */
  predicate Fits(x: seq<char>, t: seq<char>, base: nat, n: nat, k: nat) {
    k <= |x| && base + k <= n <= |t| && t[n - k..n] == x[..k]
  }

  lemma FitsExtends(x: seq<char>, t: seq<char>, base: nat, n: nat, k: nat)
    requires n < |t| && k < |x|
    ensures Fits(x, t, base, n + 1, k + 1) <==> Fits(x, t, base, n, k) && x[k] == t[n]
  {
    if base + k <= n {
      assert x[..k + 1] == x[..k] + [x[k]];
      assert t[n - k..n + 1] == t[n - k..n] + [t[n]];
    }
  }

  /** Below a fit, the fits are exactly its borders. */
  lemma FitsAreBorders(x: seq<char>, t: seq<char>, base: nat, n: nat, q: nat, k: nat)
    requires Fits(x, t, base, n, q) && k < q
    ensures Fits(x, t, base, n, k) <==> IsBorder(x[..q], k)
  {
    assert x[..q][..k] == x[..k];
    assert t[n - q..n][q - k..] == t[n - k..n];
  }

  lemma CorrectDescends(x: seq<char>, next: seq<int>)
    requires NextCorrect(x, next)
    ensures Descends(next, |x|)
  {
    forall i | 1 <= i <= |x| + 1
      ensures 0 <= next[i] < i
    {
      assert i >= 2 ==> NextCorrectAt(x, next, i);
    }
  }

  /** The inner loop finds the longest fit that `c` extends, when all longer fits have been ruled out. */
  lemma {:induction false} FallFindsFit(x: seq<char>, next: seq<int>, t: seq<char>, base: nat, n: nat, i: nat)
    requires NextCorrect(x, next) && Descends(next, |x|) && n < |t|
    requires i <= |x| && (i > 0 ==> Fits(x, t, base, n, i - 1))
    requires forall k | i <= k < |x| :: !(Fits(x, t, base, n, k) && x[k] == t[n])
    ensures var f := Fall(x, next, i, t[n]);
            && (f > 0 ==> Fits(x, t, base, n, f - 1) && x[f - 1] == t[n])
            && forall k | f <= k < |x| :: !(Fits(x, t, base, n, k) && x[k] == t[n])
    decreases i
  {
    if i > 0 && x[i - 1] != t[n] {
      if i > 1 {
        assert NextCorrectAt(x, next, i);
        forall k: nat | next[i] - 1 <= k < i - 1
          ensures k >= next[i] ==> !Fits(x, t, base, n, k)
          ensures k == next[i] - 1 ==> Fits(x, t, base, n, k)
        {
          FitsAreBorders(x, t, base, n, i - 1, k);
        }
      }
      FallFindsFit(x, next, t, base, n, next[i]);
    }
  }

  ghost function Base(x: seq<char>, hits: seq<nat>): nat {
    if hits == [] then 0 else hits[|hits| - 1] + |x|
  }

  ghost predicate LongestFit(x: seq<char>, t: seq<char>, base: nat, n: nat, q: nat) {
    Fits(x, t, base, n, q) && forall k | q < k <= |x| :: !Fits(x, t, base, n, k)
  }

  /** The searcher's invariant: `i - 1` is the longest fit since the last report, and the reports
      are the greedy choice in the text read so far. */
  ghost predicate OnTrack(x: seq<char>, t: seq<char>, n: nat, s: Scan) {
    && n <= |t|
    && 1 <= s.i <= |x|
    && LongestFit(x, t, Base(x, s.hits), n, s.i - 1)
    && Greedy(x, t[..n], s.hits)
  }

  lemma OccursFits(x: seq<char>, t: seq<char>, n: nat, p: nat)
    requires n <= |t|
    ensures Occurs(x, t[..n], p) <==> p + |x| <= n && Fits(x, t, p, p + |x|, |x|)
  {
    if p + |x| <= n {
      assert t[..n][p..p + |x|] == t[p..p + |x|];
    }
  }

  /** A character that completes no occurrence since the last report changes no reports. */
  lemma GreedyKept(x: seq<char>, t: seq<char>, n: nat, hits: seq<nat>)
    requires n < |t| && |x| > 0 && Greedy(x, t[..n], hits)
    requires !Fits(x, t, Base(x, hits), n + 1, |x|)
    ensures Greedy(x, t[..n + 1], hits)
  {
    var u := t[..n + 1];
    forall p: nat
      ensures Occurs(x, t[..n], p) ==> Occurs(x, u, p)
      ensures Occurs(x, u, p) ==> Covered(hits, |x|, p)
    {
      OccursFits(x, t, n, p);
      OccursFits(x, t, n + 1, p);
      if Occurs(x, u, p) && p + |x| == n + 1 {
        assert p < Base(x, hits);
        var last := |hits| - 1;
        OccursFits(x, t, n, hits[last]);
        assert Occurs(x, t[..n], hits[last]);
        assert Overlaps(hits[last], p, |x|);
      } else if Occurs(x, u, p) {
        assert Occurs(x, t[..n], p);
      }
    }
  }

  lemma ApartGrows(hits: seq<nat>, m: nat, p: nat)
    requires Apart(hits, m) && (hits != [] ==> hits[|hits| - 1] + m <= p)
    ensures Apart(hits + [p], m)
  {
    var more := hits + [p];
    forall k: nat | 1 <= k < |more|
      ensures ApartAt(more, m, k)
    {
      assert k < |hits| ==> ApartAt(hits, m, k);
    }
  }

  /** A completed occurrence is the next report. */
  lemma GreedyGrows(x: seq<char>, t: seq<char>, n: nat, hits: seq<nat>)
    requires n < |t| && |x| > 0 && Greedy(x, t[..n], hits)
    requires Fits(x, t, Base(x, hits), n + 1, |x|)
    ensures Greedy(x, t[..n + 1], hits + [n + 1 - |x|])
  {
    var u, more := t[..n + 1], hits + [n + 1 - |x|];
    ApartGrows(hits, |x|, n + 1 - |x|);
    forall p: nat
      ensures Occurs(x, t[..n], p) ==> Occurs(x, u, p)
      ensures p == n + 1 - |x| ==> Occurs(x, u, p)
      ensures Occurs(x, u, p) ==> Covered(more, |x|, p)
    {
      OccursFits(x, t, n, p);
      OccursFits(x, t, n + 1, p);
      if p == n + 1 - |x| {
        assert more[|hits|] == p;
      } else if Occurs(x, u, p) {
        assert Occurs(x, t[..n], p);
        CoveredStill(hits, more, |x|, p);
      }
    }
  }

  lemma CoveredStill(hits: seq<nat>, more: seq<nat>, m: nat, p: nat)
    requires hits <= more && Covered(hits, m, p)
    ensures Covered(more, m, p)
  {
    if p in hits {
      var k :| 0 <= k < |hits| && hits[k] == p;
      assert more[k] == p;
    } else {
      var k :| 0 <= k < |hits| && Overlaps(hits[k], p, m);
      assert Overlaps(more[k], p, m);
    }
  }

  /** One character moves the searcher from the longest fit to the longest fit. */
  lemma FallKeepsLongest(x: seq<char>, next: seq<int>, t: seq<char>, base: nat, n: nat, i: nat)
    requires NextCorrect(x, next) && Descends(next, |x|) && base <= n < |t|
    requires 1 <= i <= |x| && LongestFit(x, t, base, n, i - 1)
    ensures LongestFit(x, t, base, n + 1, Fall(x, next, i, t[n]))
  {
    FallFindsFit(x, next, t, base, n, i);
    var f, n' := Fall(x, next, i, t[n]), n + 1;
    if f > 0 {
      FitsExtends(x, t, base, n, f - 1);
    }
    forall k: nat | f < k <= |x|
      ensures !Fits(x, t, base, n', k)
    {
      FitsExtends(x, t, base, n, k - 1);
    }
  }

  lemma AdvanceOnTrack(x: seq<char>, next: seq<int>, t: seq<char>, n: nat, s: Scan)
    requires |x| > 0 && NextCorrect(x, next) && Descends(next, |x|) && n < |t|
    requires OnTrack(x, t, n, s)
    ensures OnTrack(x, t, n + 1, Advance(x, next, s, t[n], n + 1))
  {
    var base := Base(x, s.hits);
    FallKeepsLongest(x, next, t, base, n, s.i);
    if Fall(x, next, s.i, t[n]) == |x| {
      GreedyGrows(x, t, n, s.hits);
      var s' := Advance(x, next, s, t[n], n + 1);
      assert Base(x, s'.hits) == n + 1;
    } else {
      assert !Fits(x, t, base, n + 1, |x|);
      GreedyKept(x, t, n, s.hits);
    }
  }

  lemma StartsOnTrack(x: seq<char>, t: seq<char>)
    requires |x| > 0
    ensures OnTrack(x, t, 0, Scan(1, []))
  {
  }

  lemma {:induction false} StaysOnTrack(x: seq<char>, next: seq<int>, t: seq<char>, n: nat)
    requires |x| > 0 && NextCorrect(x, next) && Descends(next, |x|) && n <= |t|
    ensures OnTrack(x, t, n, Search(x, next, t, n))
  {
    if n == 0 {
      StartsOnTrack(x, t);
    } else {
      StaysOnTrack(x, next, t, n - 1);
      AdvanceOnTrack(x, next, t, n - 1, Search(x, next, t, n - 1));
    }
  }

  /** With a table that is right for its pattern, the reports are the greedy choice of
      non-overlapping occurrences in the first `n` characters. */
  lemma SearchIsGreedy(x: seq<char>, next: seq<int>, t: seq<char>, n: nat)
    requires |x| > 0 && NextCorrect(x, next) && Descends(next, |x|) && n <= |t|
    ensures Greedy(x, t[..n], Search(x, next, t, n).hits)
  {
    StaysOnTrack(x, next, t, n);
  }

  /** The empty pattern is the exception: it is reported after every character, never before the first. */
  lemma {:induction false} EmptyPattern(next: seq<int>, t: seq<char>, n: nat)
    requires Descends(next, 0) && n <= |t|
    ensures Search([], next, t, n) == Scan(1, seq(n, k requires 0 <= k < n => k + 1))
    ensures !Greedy([], t[..n], Search([], next, t, n).hits)
  {
    if n > 0 {
      EmptyPattern(next, t, n - 1);
    }
    var s: Scan := Search([], next, t, n);
    assert Fall([], next, 1, 'x') == 0;
    assert Occurs([], t[..n], 0);
    assert !Covered(s.hits, 0, 0);
  }
}
