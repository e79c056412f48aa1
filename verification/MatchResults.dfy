/**
 What the search engine finds and what it does not: when its reports are those
 of the haystack, for which tables, that it comes to its end, and what several
 engines find that each search a part of the haystack.
 */
module MatchResults {
  import opened MorrisPrattTables
  import opened MorrisPrattSearch
  import opened MorrisPrattPairing
  import opened MatchEngine

  // ----- the end of the haystack -----

  /** Reading one more character adds at most the report of what ends there. */
  lemma HitsGrow(k: Job, n: nat)
    requires Proper(k) && |k.x| > 0 && 0 < n <= k.n
    ensures Hits(k, n) == Hits(k, n - 1)
         || (n >= |k.x| && Hits(k, n) == Hits(k, n - 1) + [n - |k.x|])
  {
    var s := Search(k.x, k.next, k.t, n - 1);
    assert Search(k.x, k.next, k.t, n) == Advance(k.x, k.next, s, k.t[n - 1], n);
  }

  /** The engine reports the leftmost non-overlapping occurrences in the haystack if and only if none of
      them ends at the last character. */
  lemma EngineRightIff(k: Job, greedy: seq<nat>)
    requires Proper(k) && |k.x| > 0 && k.n > 0 && NextCorrect(k.x, k.next) && Greedy(k.x, k.t[..k.n], greedy)
    ensures Greedy(k.x, k.t[..k.n], Hits(k, k.n - 1)) <==>
            greedy == [] || greedy[|greedy| - 1] + |k.x| < k.n
  {
    var all, found := Hits(k, k.n), Hits(k, k.n - 1);
    SearchIsGreedy(k.x, k.next, k.t, k.n);
    GreedyUnique(k.x, k.t[..k.n], all, greedy);
    HitsGrow(k, k.n);
    EngineIsGreedy(k);
    if found != [] {
      assert Occurs(k.x, k.t[..k.n - 1], found[|found| - 1]);
    }
    if Greedy(k.x, k.t[..k.n], found) {
      GreedyUnique(k.x, k.t[..k.n], all, found);
    }
  }

  /** So it never finds a needle that is the whole haystack. */
  lemma WholeHaystackMissed(k: Job)
    requires Proper(k) && |k.x| > 0 && k.t[..k.n] == k.x && NextCorrect(k.x, k.next)
    ensures Occurs(k.x, k.t[..k.n], 0) && Hits(k, k.n - 1) == []
  {
    EngineIsGreedy(k);
    var found := Hits(k, k.n - 1);
    assert found != [] ==> Occurs(k.x, k.t[..k.n - 1], found[0]);
  }

  // ----- tables that are not the needle's own -----

  lemma {:induction false} SearchOfPrefix(x: seq<char>, next: seq<int>, t: seq<char>, u: seq<char>, n: nat)
    requires Descends(next, |x|) && n <= |t| && n <= |u| && t[..n] == u[..n]
    ensures Search(x, next, t, n) == Search(x, next, u, n)
  {
    if n > 0 {
      assert t[..n - 1] == t[..n][..n - 1] && u[..n - 1] == u[..n][..n - 1];
      assert t[n - 1] == t[..n][n - 1] && u[n - 1] == u[..n][n - 1];
      SearchOfPrefix(x, next, t, u, n - 1);
    }
  }

  /** The engine finds what it can of every haystack. */
  ghost predicate EngineRightOnAll(x: seq<char>, next: seq<int>)
    requires Descends(next, |x|)
  {
    forall t: seq<char>, n: nat {:trigger Search(x, next, t, n)} | n < |t| ::
      Greedy(x, t[..n], Search(x, next, t, n).hits)
  }

  /** It does with exactly the tables that fall as the needle's own. */
  lemma EngineRightIffSameFalls(x: seq<char>, next: seq<int>, own: seq<int>)
    requires |x| > 0 && NextCorrect(x, own) && Descends(own, |x|) && Descends(next, |x|)
    ensures EngineRightOnAll(x, next) <==> SameFalls(x, next, own)
  {
    RightIffSameFalls(x, next, own);
    if RightOnAllTexts(x, next) {
      forall t: seq<char>, n: nat | n < |t|
        ensures Greedy(x, t[..n], Search(x, next, t, n).hits)
      {
        SearchOfPrefix(x, next, t, t[..n], n);
        assert Greedy(x, t[..n], Search(x, next, t[..n], |t[..n]|).hits);
      }
    }
    if EngineRightOnAll(x, next) {
      forall t: seq<char>
        ensures Greedy(x, t, Search(x, next, t, |t|).hits)
      {
        var longer := t + x;
        assert longer[..|t|] == t == t[..|t|];
        SearchOfPrefix(x, next, t, longer, |t|);
        assert Greedy(x, longer[..|t|], Search(x, next, longer, |t|).hits);
      }
    }
  }

  /** The needle the driver ships is among the lucky ones, whatever byte is stored after it ... */
  lemma ShippedNeedleFound(built: seq<int>, after: char)
    requires NextCorrect((SHIPPED + [after])[1..5], built) && Descends(built, 4)
    ensures EngineRightOnAll(SHIPPED, built)
  {
    ShippedNeedleIsRight(built, after);
    var own := ShippedOwnTable();
    CorrectDescends(SHIPPED, own);
    RightIffSameFalls(SHIPPED, built, own);
    EngineRightIffSameFalls(SHIPPED, built, own);
  }

  /** ... and "aab" is not: of "aaab" followed by any character the engine reports nothing. */
  lemma PairingMissedByEngine(built: seq<int>, c: char)
    requires NextCorrect("ab\0", built) && Descends(built, 3)
    ensures var k := Job("aab", built, "aaab" + [c], 5, 0);
            Proper(k) && Occurs("aab", k.t, 1) && Hits(k, k.n - 1) == []
  {
    PairingMisses(built);
    var t := "aaab" + [c];
    assert t[..4] == "aaab" == "aaab"[..4];
    SearchOfPrefix("aab", built, "aaab", t, 4);
    assert t[1..4] == "aaab"[1..4];
  }

  // ----- coming to the end -----

  lemma NextRule(k: Job, s: Engine) returns (e: Rule)
    requires Proper(k) && |k.x| > 0 && EngineInv(k, s) && s.searching
    ensures Enabled(k, s, e)
    ensures var r := Step(k, s, e);
            && EngineInv(k, r)
            && (r.searching ==>
                  || r.jReg > s.jReg
                  || (r.jReg == s.jReg && (Place(r) < Place(s) || (Place(r) == Place(s) && Behind(r) < Behind(s)))))
  {
    OutdatedIs(s.efifo, s.epochReg, Outdated(s.efifo, s.epochReg));
    if s.efifo == [] {
      e := MatchNeedleReq;
      OutdatedIs([Fetch(s.epochReg, s.iReg)], s.epochReg, 0);
    } else {
      e := MatchNeedleResp;
      if s.efifo[0].epoch != s.epochReg {
        DropKeeps(k, s);
        DropLess(k, s);
      } else if s.jReg <= k.n {
        CompareLess(k, s);
      }
    }
    StepKeepsInv(k, s, e);
  }

  /** The fetches to be dropped, and the one to be made, before the one that counts. */
  function Behind(s: Engine): nat {
    Outdated(s.efifo, s.epochReg) + if Outdated(s.efifo, s.epochReg) == |s.efifo| then 1 else 0
  }

  lemma DropLess(k: Job, s: Engine)
    requires Proper(k) && EngineInv(k, s) && Enabled(k, s, MatchNeedleResp) && s.efifo[0].epoch != s.epochReg
    ensures Behind(Step(k, s, MatchNeedleResp)) < Behind(s)
  {
    var p := Outdated(s.efifo, s.epochReg);
    OutdatedIs(s.efifo[1..], s.epochReg, p - 1);
  }

  lemma CompareLess(k: Job, s: Engine)
    requires Comparing(k, s)
    ensures var r := Step(k, s, MatchNeedleResp);
            r.searching && (r.jReg > s.jReg || (r.jReg == s.jReg && Place(r) < Place(s)))
  {
    OutdatedIs(s.efifo, s.epochReg, 0);
    var i, r := s.efifo[0].i, Step(k, s, MatchNeedleResp);
    assert s.haystack[0] == k.t[s.jReg - 1];
    if i == |k.x| + 1 {
      Restarted(s, r);
    } else if k.x[i - 1] != k.t[s.jReg - 1] && k.next[i] > 0 {
      Redirected(s, r);
    }
  }

  lemma RunNext(k: Job, s: Engine, e: Rule, es: seq<Rule>)
    requires Proper(k) && Sane(k, s)
    ensures Run(k, s, [e] + es) == Run(k, Step(k, s, e), es)
  {
    assert ([e] + es)[1..] == es;
  }

  /** From any state it may have reached, an engine with a needle can come to its end. */
  lemma {:induction false} Finishes(k: Job, s: Engine) returns (es: seq<Rule>)
    requires Proper(k) && |k.x| > 0 && EngineInv(k, s)
    ensures !Run(k, s, es).searching
    decreases if s.searching then k.n + 2 - s.jReg else 0, Place(s), Behind(s)
  {
    if !s.searching {
      es := [];
    } else {
      var e := NextRule(k, s);
      var rest := Finishes(k, Step(k, s, e));
      RunNext(k, s, e, rest);
      es := [e] + rest;
    }
  }

  /** Without one it never does: it reports the first position again and again and reads nothing. */
  lemma {:induction false} EmptyNeedleNeverEnds(k: Job, s: Engine, es: seq<Rule>)
    requires Proper(k) && k.x == [] && k.n > 0
    requires Sane(k, s) && s.searching && s.jReg == 1
    ensures Run(k, s, es).searching && Run(k, s, es).jReg == 1
    decreases |es|
  {
    if es != [] {
      EmptyNeedleNeverEnds(k, Step(k, s, es[0]), es[1..]);
    }
  }

  // ----- several engines -----

  /** The part of the haystack from `from` on, given to one engine: unless it is the last one, it goes on
      a needle's length into the next. */
  function Part(x: seq<char>, next: seq<int>, t: seq<char>, size: nat, from: nat, last: bool): Job
    requires from <= |t|
  {
    Job(x, next, t[from..], if last then size else size + |x|, from)
  }

  lemma PartOccurs(x: seq<char>, t: seq<char>, from: nat, n: nat, h: nat)
    requires from + n <= |t|
    ensures Occurs(x, t[from..][..n], h) <==> h + |x| <= n && Occurs(x, t, from + h)
  {
    if h + |x| <= n {
      assert t[from..][..n][h..h + |x|] == t[from + h..from + h + |x|];
    }
  }

  predicate OccursFrom(x: seq<char>, t: seq<char>, from: nat, q: nat) {
    Occurs(x, t, from + q)
  }

  /** An engine reports only occurrences that start in its own part, and of those that do, and for the last
      engine end before the last character, it reports each, or one that overlaps it from the left. */
  ghost predicate PartRight(x: seq<char>, t: seq<char>, size: nat, from: nat, last: bool, found: seq<nat>) {
    && (forall h <- found :: h < size && OccursFrom(x, t, from, h))
    && forall q: nat {:trigger OccursFrom(x, t, from, q)} ::
         q < size && OccursFrom(x, t, from, q) && (last ==> q + |x| < size) ==> Covered(found, |x|, q)
  }

  lemma PartSearched(x: seq<char>, next: seq<int>, t: seq<char>, size: nat, from: nat, last: bool, k: Job)
    requires |x| > 0 && NextCorrect(x, next) && size > 0 && from <= |t|
    requires k == Part(x, next, t, size, from, last) && Proper(k)
    ensures PartRight(x, t, size, from, last, Hits(k, k.n - 1))
  {
    EngineIsGreedy(k);
    var found := Hits(k, k.n - 1);
    forall h | h in found
      ensures h < size && OccursFrom(x, t, from, h)
    {
      assert Occurs(x, k.t[..k.n - 1], h);
      PartOccurs(x, t, from, k.n - 1, h);
    }
    forall q: nat | q < size && OccursFrom(x, t, from, q) && (last ==> q + |x| < size)
      ensures Covered(found, |x|, q)
    {
      PartOccurs(x, t, from, k.n - 1, q);
    }
  }

  /** Entry `a` of a list of reports is for an occurrence that starts no later than `q` and ends behind it. */
  predicate Reaches(locf: seq<int>, m: nat, q: nat, a: nat) {
    a < |locf| - 1 && locf[a] <= q < locf[a] + m
  }

  ghost predicate Reached(locf: seq<int>, m: nat, q: nat) {
    exists a :: Reaches(locf, m, q, a)
  }

  /** The list of reports ends with the end mark, and before it has occurrences in the haystack `t` that start
      in the part from `from` on, in order and apart. */
  ghost predicate ReportsRight(x: seq<char>, t: seq<char>, size: nat, from: nat, locf: seq<int>) {
    && locf != [] && locf[|locf| - 1] == -1
    && (forall a :: 0 <= a < |locf| - 1 ==> from <= locf[a] < from + size && Occurs(x, t, locf[a]))
    && forall a, b :: 0 <= a < b < |locf| - 1 ==> locf[a] + |x| <= locf[b]
  }

  /** It has, of the occurrences that start there, and for the last engine end before the last character, each
      or one that overlaps it from the left. */
  ghost predicate ReportsAll(x: seq<char>, t: seq<char>, size: nat, from: nat, last: bool, locf: seq<int>) {
    forall q: nat {:trigger Reached(locf, |x|, q)} ::
      from <= q < from + size && Occurs(x, t, q) && (last ==> q + |x| < from + size) ==> Reached(locf, |x|, q)
  }

  lemma FoundRight(x: seq<char>, t: seq<char>, size: nat, from: nat, last: bool, found: seq<nat>, locf: seq<int>)
    requires PartRight(x, t, size, from, last, found) && Apart(found, |x|)
    requires locf == Offsets(from, found) + [-1]
    ensures ReportsRight(x, t, size, from, locf)
  {
    forall a | 0 <= a < |locf| - 1
      ensures from <= locf[a] < from + size && Occurs(x, t, locf[a])
    {
      assert found[a] in found && OccursFrom(x, t, from, found[a]);
    }
    forall a, b | 0 <= a < b < |locf| - 1
      ensures locf[a] + |x| <= locf[b]
    {
      ApartSpreads(found, |x|, a, b);
    }
  }

  lemma CoveredReached(x: seq<char>, from: nat, found: seq<nat>, locf: seq<int>, q: nat)
    requires |x| > 0 && Covered(found, |x|, q) && locf == Offsets(from, found) + [-1]
    ensures Reached(locf, |x|, from + q)
  {
    if q in found {
      var a :| 0 <= a < |found| && found[a] == q;
      assert Reaches(locf, |x|, from + q, a);
    } else {
      var a :| 0 <= a < |found| && Overlaps(found[a], q, |x|);
      assert Reaches(locf, |x|, from + q, a);
    }
  }

  lemma FoundAll(x: seq<char>, t: seq<char>, size: nat, from: nat, last: bool, found: seq<nat>, locf: seq<int>)
    requires |x| > 0 && PartRight(x, t, size, from, last, found)
    requires locf == Offsets(from, found) + [-1]
    ensures ReportsAll(x, t, size, from, last, locf)
  {
    forall q: nat | from <= q < from + size && Occurs(x, t, q) && (last ==> q + |x| < from + size)
      ensures Reached(locf, |x|, q)
    {
      assert OccursFrom(x, t, from, q - from);
      CoveredReached(x, from, found, locf, q - from);
    }
  }

  /** However an engine of a split search has come to its end, that is what it has reported. */
  lemma PartReports(x: seq<char>, next: seq<int>, t: seq<char>, size: nat, from: nat, last: bool, k: Job, es: seq<Rule>)
    requires |x| > 0 && NextCorrect(x, next) && size > 0 && from <= |t|
    requires k == Part(x, next, t, size, from, last) && Proper(k) && !Run(k, Begin(k), es).searching
    ensures var locf := Run(k, Begin(k), es).locf;
            ReportsRight(x, t, size, from, locf) && ReportsAll(x, t, size, from, last, locf)
  {
    var locf := Run(k, Begin(k), es).locf;
    PartSearched(x, next, t, size, from, last, k);
    EngineIsGreedy(k);
    EngineReports(k, es);
    FoundRight(x, t, size, from, last, Hits(k, k.n - 1), locf);
    FoundAll(x, t, size, from, last, Hits(k, k.n - 1), locf);
  }

  lemma {:induction false} PartOf(q: nat, p: nat, size: nat) returns (e: nat)
    requires size > 0 && q < p * size
    ensures e < p && e * size <= q < e * size + size <= p * size
    ensures e + 1 == p ==> p * size == e * size + size
  {
    assert p > 0 && (p - 1) * size == p * size - size >= 0;
    if q < size {
      e := 0;
    } else {
      var d := PartOf(q - size, p - 1, size);
      e := d + 1;
      assert e * size == d * size + size;
    }
  }

  /** Together, `p` engines with parts of `size` cover every occurrence that ends before the last character:
      however the engine in whose part it starts has come to its end, its list has the occurrence, or one that
      overlaps it from the left. */
  lemma SplitSearchCovers(x: seq<char>, next: seq<int>, t: seq<char>, p: nat, size: nat, q: nat)
    returns (e: nat, k: Job)
    requires |x| > 0 && NextCorrect(x, next) && Descends(next, |x|) && |x| < MAX_NEEDLE
    requires size > 0 && p * size <= |t| && (p - 1) * size + |x| <= |t| && Occurs(x, t, q) && q + |x| < p * size
    ensures e < p && e * size <= q < e * size + size && e * size <= |t|
    ensures k == Part(x, next, t, size, e * size, e + 1 == p) && Proper(k)
    ensures forall es {:trigger Run(k, Begin(k), es)} :: !Run(k, Begin(k), es).searching ==>
              Reached(Run(k, Begin(k), es).locf, |x|, q)
  {
    e := PartOf(q, p, size);
    k := Part(x, next, t, size, e * size, e + 1 == p);
    if e + 1 < p {
      NextPart(e, p, size);
    }
    forall es: seq<Rule> | !Run(k, Begin(k), es).searching
      ensures Reached(Run(k, Begin(k), es).locf, |x|, q)
    {
      PartReports(x, next, t, size, e * size, e + 1 == p, k, es);
    }
  }

  lemma NextPart(e: nat, p: nat, size: nat)
    requires e + 1 < p
    ensures e * size + size <= (p - 1) * size
  {
    assert e * size + size == (e + 1) * size <= (p - 1) * size;
  }
}
