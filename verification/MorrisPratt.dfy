/**
 The Morris-Pratt matcher of projects/flash_strstr_raw/mp.h.

 Patterns are sequences indexed from 0.  The two table builders read their
 argument from index 1, so what they are given is described as
 `x[1..m + 1]`; the searcher reads its argument from index 0.
 */
module Borders {

  /** `s[..k]` is a proper prefix of `s` that is also a suffix of `s`. */
  predicate IsBorder(s: seq<char>, k: nat) {
    k < |s| && s[..k] == s[|s| - k..]
  }

  ghost predicate BordersUpTo(s: seq<char>, k: nat) {
    forall l: nat | IsBorder(s, l) :: l <= k
  }

  ghost predicate IsLongestBorder(s: seq<char>, k: nat) {
    IsBorder(s, k) && BordersUpTo(s, k)
  }

  /** A non-empty border of `p[..i + 1]` is a border of `p[..i]` extended by one matching character. */
  lemma BorderExtends(p: seq<char>, i: nat, k: nat)
    requires 1 <= k <= i < |p|
    ensures IsBorder(p[..i + 1], k) <==> IsBorder(p[..i], k - 1) && p[k - 1] == p[i]
  {
    var s, r := p[..i + 1], p[..i];
    assert s == r + [p[i]] && s[..k] == r[..k - 1] + [p[k - 1]];
    assert s[|s| - k..] == r[|r| - (k - 1)..] + [p[i]];
    if s[..k] == s[|s| - k..] {
      assert s[..k][..k - 1] == r[..k - 1] && s[|s| - k..][..k - 1] == r[|r| - (k - 1)..];
      assert s[..k][k - 1] == p[k - 1] && s[|s| - k..][k - 1] == p[i];
    }
  }

  /** A non-empty border shows the first character of the word again. */
  lemma BorderRepeatsFirst(s: seq<char>, k: nat)
    requires IsBorder(s, k)
    ensures k > 0 ==> s[|s| - k] == s[0]
  {
    if k > 0 {
      assert s[..k][0] == s[|s| - k..][0];
    }
  }

  /** Borders of one word form a chain: the shorter one is a border of the longer one, and conversely. */
  lemma BordersChain(s: seq<char>, j: nat, k: nat)
    requires IsBorder(s, j) && k < j
    ensures IsBorder(s, k) <==> IsBorder(s[..j], k)
  {
    var u := s[..j];
    assert u[..k] == s[..k];
    assert u == s[|s| - j..];
    assert u[|u| - k..] == s[|s| - k..];
  }
}

module MorrisPrattTables {
  import opened Borders

  /** What compute_borders is for: entry `i` holds the longest border of the first `i` characters. */
  ghost predicate BordersCorrect(p: seq<char>, border: seq<int>) {
    && |border| > |p|
    && border[0] == -1
    && forall i :: 1 <= i <= |p| ==> BorderCorrectAt(p, border, i)
  }

  ghost predicate BorderCorrectAt(p: seq<char>, border: seq<int>, i: nat)
    requires 1 <= i <= |p| < |border|
  {
    border[i] >= 0 && IsLongestBorder(p[..i], border[i])
  }

  /** What compute_MP_next is for: entry `i` is one more than the longest border of the first `i - 1` characters. */
  ghost predicate NextCorrect(p: seq<char>, next: seq<int>) {
    && |next| > |p| + 1
    && next[1] == 0
    && forall i :: 2 <= i <= |p| + 1 ==> NextCorrectAt(p, next, i)
  }

  ghost predicate NextCorrectAt(p: seq<char>, next: seq<int>, i: nat)
    requires 2 <= i <= |p| + 1 < |next|
  {
    next[i] >= 1 && IsLongestBorder(p[..i - 1], next[i] - 1)
  }

  /** The search for the longest border of `p[..i + 1]`, with the border `j` of `p[..i]`
      the one to be tried next; `-1` when all of them have been tried. */
  ghost predicate Probe(p: seq<char>, i: nat, j: int) {
    && i < |p|
    && -1 <= j < i
    && (j >= 0 ==> IsBorder(p[..i], j))
    && BordersUpTo(p[..i + 1], j + 1)
  }

  /** The search starts from the longest border of `p[..i]`. */
  lemma ProbeStart(p: seq<char>, i: nat, j: int)
    requires i < |p|
    requires if i == 0 then j == -1 else j >= 0 && IsLongestBorder(p[..i], j)
    ensures Probe(p, i, j)
  {
    var s := p[..i + 1];
    forall k: nat | IsBorder(s, k)
      ensures k <= j + 1
    {
      if k >= 1 {
        BorderExtends(p, i, k);
      }
    }
  }

  /** After a mismatch the next border to try is the longest border of the current one. */
  lemma ProbeStep(p: seq<char>, i: nat, j: nat, b: int)
    requires Probe(p, i, j) && p[j] != p[i]
    requires if j == 0 then b == -1 else b >= 0 && IsLongestBorder(p[..j], b)
    ensures Probe(p, i, b)
  {
    assert p[..i][..j] == p[..j];
    if b >= 0 {
      BordersChain(p[..i], j, b);
    }
    var s := p[..i + 1];
    forall k: nat | IsBorder(s, k)
      ensures k <= b + 1
    {
      if k >= 1 {
        BorderExtends(p, i, k);
        if k < j + 1 {
          BordersChain(p[..i], j, k - 1);
        }
      }
    }
  }

  /** The search ends at a match, or with no border left to try. */
  lemma ProbeDone(p: seq<char>, i: nat, j: int)
    requires Probe(p, i, j) && (j >= 0 ==> p[j] == p[i])
    ensures IsLongestBorder(p[..i + 1], j + 1)
  {
    if j >= 0 {
      BorderExtends(p, i, j + 1);
    }
  }

  ghost predicate BordersUntil(p: seq<char>, border: seq<int>, i: nat)
    requires i <= |p| < |border|
  {
    border[0] == -1 && forall k :: 1 <= k <= i ==> BorderCorrectAt(p, border, k)
  }

  ghost predicate NextUntil(p: seq<char>, next: seq<int>, i: nat)
    requires i <= |p| + 1 < |next|
  {
    next[1] == 0 && forall k :: 2 <= k <= i ==> NextCorrectAt(p, next, k)
  }

  /** The three places of compute_borders where `j` changes: the border of `p[..i]` taken from the
      table, a link followed after a mismatch, and the new entry. */
  lemma BorderTaken(p: seq<char>, border: seq<int>, i: nat)
    requires i < |p| < |border| && BordersUntil(p, border, i)
    ensures Probe(p, i, border[i])
  {
    assert i > 0 ==> BorderCorrectAt(p, border, i);
    ProbeStart(p, i, border[i]);
  }

  lemma BorderFollowed(p: seq<char>, border: seq<int>, i: nat, j: nat)
    requires i < |p| < |border| && BordersUntil(p, border, i) && Probe(p, i, j) && p[j] != p[i]
    ensures border[j] < j && Probe(p, i, border[j])
  {
    assert j > 0 ==> BorderCorrectAt(p, border, j);
    ProbeStep(p, i, j, border[j]);
  }

  lemma BorderRecorded(p: seq<char>, border: seq<int>, i: nat, j: int)
    requires i < |p| < |border| && BordersUntil(p, border, i)
    requires Probe(p, i, j) && (j >= 0 ==> p[j] == p[i])
    ensures BordersUntil(p, border[i + 1 := j + 1], i + 1)
  {
    ProbeDone(p, i, j);
    var after := border[i + 1 := j + 1];
    forall k | 1 <= k <= i
      ensures BorderCorrectAt(p, after, k)
    {
      assert BorderCorrectAt(p, border, k);
    }
  }

  /** The same three places of compute_MP_next. */
  lemma NextTaken(p: seq<char>, next: seq<int>, i: nat)
    requires 1 <= i <= |p| && |p| + 1 < |next| && NextUntil(p, next, i)
    ensures Probe(p, i - 1, next[i] - 1)
  {
    assert i > 1 ==> NextCorrectAt(p, next, i);
    ProbeStart(p, i - 1, next[i] - 1);
  }

  lemma NextFollowed(p: seq<char>, next: seq<int>, i: nat, j: nat)
    requires 1 <= i <= |p| && |p| + 1 < |next| && NextUntil(p, next, i)
    requires j > 0 && Probe(p, i - 1, j - 1) && p[j - 1] != p[i - 1]
    ensures 0 <= next[j] < j && Probe(p, i - 1, next[j] - 1)
  {
    assert j > 1 ==> NextCorrectAt(p, next, j);
    ProbeStep(p, i - 1, j - 1, next[j] - 1);
  }

  lemma NextRecorded(p: seq<char>, next: seq<int>, i: nat, j: nat)
    requires 1 <= i <= |p| && |p| + 1 < |next| && NextUntil(p, next, i)
    requires Probe(p, i - 1, j - 1) && (j > 0 ==> p[j - 1] == p[i - 1])
    ensures NextUntil(p, next[i + 1 := j + 1], i + 1)
  {
    ProbeDone(p, i - 1, j - 1);
    var after := next[i + 1 := j + 1];
    forall k | 2 <= k <= i
      ensures NextCorrectAt(p, after, k)
    {
      assert NextCorrectAt(p, next, k);
    }
  }

  /** compute_borders: `steps` counts the iterations of the inner loop over the whole call. */
  method ComputeBorders(x: seq<char>, border: array<int>, m: nat) returns (ghost steps: nat)
    requires m < |x| && m < border.Length
    modifies border
    ensures BordersCorrect(x[1..m + 1], border[..])
    ensures border[m + 1..] == old(border[m + 1..])
    ensures steps <= m
  {
    ghost var p := x[1..m + 1];
    steps := 0;
    border[0] := -1;
    for i := 1 to m + 1
      invariant border[i - 1] >= -1 && BordersUntil(p, border[..], i - 1)
      invariant forall k :: m < k < border.Length ==> border[k] == old(border[k])
      invariant steps + border[i - 1] <= i - 2
    {
      var j := border[i - 1];
      ghost var table := border[..];
      BorderTaken(p, table, i - 1);
      while j >= 0 && x[i] != x[j + 1]
        invariant Probe(p, i - 1, j) && border[..] == table
        invariant steps + j <= i - 2
        decreases j
        modifies {}
      {
        BorderFollowed(p, table, i - 1, j);
        j := border[j];
        steps := steps + 1;
      }
      BorderRecorded(p, table, i - 1, j);
      border[i] := j + 1;
      assert border[..] == table[i := j + 1];
    }
  }

  /** compute_MP_next: a different loop, for the same function shifted by one in index and value. */
  method ComputeMpNext(x: seq<char>, mpNext: array<int>, m: nat) returns (ghost steps: nat)
    requires m < |x| && m + 1 < mpNext.Length
    modifies mpNext
    ensures NextCorrect(x[1..m + 1], mpNext[..])
    ensures mpNext[0] == old(mpNext[0]) && mpNext[m + 2..] == old(mpNext[m + 2..])
    ensures steps <= m
  {
    ghost var p := x[1..m + 1];
    steps := 0;
    mpNext[1] := 0;
    var j := 0;
    for i := 1 to m + 1
      invariant 0 <= j == mpNext[i] && NextUntil(p, mpNext[..], i)
      invariant forall k :: k == 0 || m + 1 < k < mpNext.Length ==> mpNext[k] == old(mpNext[k])
      invariant steps + j <= i - 1
    {
      ghost var table := mpNext[..];
      NextTaken(p, table, i);
      while j > 0 && x[i] != x[j]
        invariant 0 <= j && Probe(p, i - 1, j - 1) && mpNext[..] == table
        invariant steps + j <= i - 1
        decreases j
        modifies {}
      {
        NextFollowed(p, table, i, j);
        j := mpNext[j];
        steps := steps + 1;
      }
      NextRecorded(p, table, i, j);
      j := j + 1;
      mpNext[i + 1] := j;
      assert mpNext[..] == table[i + 1 := j];
    }
  }

  /** The two builders, run on the same pattern, agree up to the shift. */
  lemma BuildersAgree(p: seq<char>, border: seq<int>, next: seq<int>)
    requires BordersCorrect(p, border) && NextCorrect(p, next)
    ensures forall i :: 1 <= i <= |p| + 1 ==> next[i] == border[i - 1] + 1
  {
    forall i | 2 <= i <= |p| + 1
      ensures next[i] == border[i - 1] + 1
    {
      assert NextCorrectAt(p, next, i) && BorderCorrectAt(p, border, i - 1);
    }
  }
}
