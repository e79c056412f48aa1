/**
 The driver gives the builder the pattern as stored from index 0, where the
 builder reads from index 1: it gets the table of the pattern moved by one
 character.  Here is exactly when a table that is not the pattern's own still
 makes the searcher of mp.h right on every text, and both outcomes for actual
 needles.  Nothing calls that searcher: the driver gives its table to the engine
 of MatchEngine, and MatchResults carries these results over to it.
 */
module MorrisPrattPairing {
  import opened Borders
  import opened MorrisPrattTables
  import opened MorrisPrattSearch

  /** The two tables send the inner loop to the same place, from every state and for every
      character of the pattern: a finite comparison, made before any text is read. */
  ghost predicate SameFalls(x: seq<char>, a: seq<int>, b: seq<int>)
    requires Descends(a, |x|) && Descends(b, |x|)
  {
    forall i: nat, k: nat | 1 <= i <= |x| && k < |x| :: Fall(x, a, i, x[k]) == Fall(x, b, i, x[k])
  }

  ghost predicate RightOnAllTexts(x: seq<char>, next: seq<int>)
    requires Descends(next, |x|)
  {
    forall t: seq<char> :: Greedy(x, t, Search(x, next, t, |t|).hits)
  }

  lemma {:induction false} ForeignCharacterFalls(x: seq<char>, next: seq<int>, i: nat, c: char)
    requires Descends(next, |x|) && i <= |x| && c !in x
    ensures Fall(x, next, i, c) == 0
    decreases i
  {
    if i > 0 {
      assert x[i - 1] in x;
      ForeignCharacterFalls(x, next, next[i], c);
    }
  }

  lemma {:induction false} SameFallsSameSearch(x: seq<char>, a: seq<int>, b: seq<int>, t: seq<char>, n: nat)
    requires |x| > 0 && Descends(a, |x|) && Descends(b, |x|) && SameFalls(x, a, b) && n <= |t|
    ensures Search(x, a, t, n) == Search(x, b, t, n)
  {
    if n > 0 {
      SameFallsSameSearch(x, a, b, t, n - 1);
      var i, c := Search(x, a, t, n - 1).i, t[n - 1];
      if c in x {
        var k :| 0 <= k < |x| && x[k] == c;
        assert Fall(x, a, i, x[k]) == Fall(x, b, i, x[k]);
      } else {
        ForeignCharacterFalls(x, a, i, c);
        ForeignCharacterFalls(x, b, i, c);
      }
    }
  }

  /** From state `i` the rest of the pattern leads straight up, to a report at its end. */
  lemma {:induction false} Climbs(x: seq<char>, next: seq<int>, t: seq<char>, n: nat, i: nat, r: nat)
    requires Descends(next, |x|) && n + r <= |t|
    requires 1 <= i && i + r <= |x| + 1 && Search(x, next, t, n) == Scan(i, [])
    requires forall l :: n <= l < n + r ==> t[l] == x[i - 1 + l - n]
    ensures i + r <= |x| ==> Search(x, next, t, n + r) == Scan(i + r, [])
    ensures i + r == |x| + 1 && r > 0 ==> Search(x, next, t, n + r).hits != []
    decreases r
  {
    if r > 0 {
      Climbs(x, next, t, n, i, r - 1);
      assert Fall(x, next, i + r - 1, t[n + r - 1]) == i + r - 1;
    }
  }

  /** No text makes the state climb by more than one a character, so nothing is reported early. */
  lemma {:induction false} ClimbsNoFaster(x: seq<char>, next: seq<int>, t: seq<char>, n: nat, i: nat, r: nat)
    requires Descends(next, |x|) && n + r <= |t|
    requires Search(x, next, t, n) == Scan(i, []) && i + r <= |x|
    ensures Search(x, next, t, n + r).hits == [] && Search(x, next, t, n + r).i <= i + r
    decreases r
  {
    if r > 0 {
      ClimbsNoFaster(x, next, t, n, i, r - 1);
    }
  }

  lemma MissDrops(x: seq<char>, next: seq<int>, i: nat, c: char, n: nat)
    requires Descends(next, |x|) && 1 <= i <= |x| && i <= n && c != x[i - 1]
    ensures Fall(x, next, i, c) < i
    ensures Advance(x, next, Scan(i, []), c, n) == Scan(Fall(x, next, i, c) + 1, [])
  {
    assert next[i] < i;
  }

  /** The pattern's own start followed by a character that does not continue it. */
  lemma ReadsPrefixThen(x: seq<char>, next: seq<int>, t: seq<char>, i: nat, c: char)
    requires Descends(next, |x|) && 1 <= i <= |x| && i <= |t| && c != x[i - 1] && t[i - 1] == c
    requires forall l :: 0 <= l < i - 1 ==> t[l] == x[l]
    ensures Search(x, next, t, i) == Scan(Fall(x, next, i, c) + 1, [])
  {
    Climbs(x, next, t, 0, 1, i - 1);
    MissDrops(x, next, i, c, i);
  }

  /** After that, the faster table reads the rest of the pattern to its end, the slower one cannot. */
  lemma EndsInReport(x: seq<char>, next: seq<int>, t: seq<char>, i: nat, g: nat)
    requires Descends(next, |x|) && 1 <= i <= |x| && g < i && |t| == i + |x| - g
    requires Search(x, next, t, i) == Scan(g + 1, [])
    requires forall l :: i <= l < |t| ==> t[l] == x[g + l - i]
    ensures Search(x, next, t, |t|).hits != []
  {
    Climbs(x, next, t, i, g + 1, |x| - g);
  }

  lemma EndsInNone(x: seq<char>, next: seq<int>, t: seq<char>, i: nat, f: nat, g: nat)
    requires Descends(next, |x|) && 1 <= i <= |x| && f < g < i && |t| == i + |x| - g
    requires Search(x, next, t, i) == Scan(f + 1, [])
    ensures Search(x, next, t, |t|).hits == []
  {
    ClimbsNoFaster(x, next, t, i, f + 1, |x| - g);
  }

  /** Two tables that fall differently once report differently on some text. */
  lemma TellingText(x: seq<char>, a: seq<int>, b: seq<int>, i: nat, c: char) returns (t: seq<char>)
    requires Descends(a, |x|) && Descends(b, |x|) && 1 <= i <= |x|
    requires Fall(x, a, i, c) < Fall(x, b, i, c)
    ensures Search(x, a, t, |t|).hits == [] != Search(x, b, t, |t|).hits
  {
    var f, g := Fall(x, a, i, c), Fall(x, b, i, c);
    assert x[i - 1] != c && g < i;
    var r := |x| - g;
    t := x[..i - 1] + [c] + x[g..];
    assert |t| == i + r && t[i - 1] == c;
    assert forall l :: 0 <= l < i - 1 ==> t[l] == x[l];
    assert forall l :: i <= l < i + r ==> t[l] == x[g + l - i];
    ReadsPrefixThen(x, a, t, i, c);
    ReadsPrefixThen(x, b, t, i, c);
    EndsInNone(x, a, t, i, f, g);
    EndsInReport(x, b, t, i, g);
  }

  /** A table makes the searcher right on every text exactly when it falls as the pattern's own table does. */
  lemma RightIffSameFalls(x: seq<char>, next: seq<int>, own: seq<int>)
    requires |x| > 0 && NextCorrect(x, own) && Descends(own, |x|) && Descends(next, |x|)
    ensures RightOnAllTexts(x, next) <==> SameFalls(x, next, own)
  {
    if SameFalls(x, next, own) {
      forall t: seq<char>
        ensures Greedy(x, t, Search(x, next, t, |t|).hits)
      {
        SameFallsSameSearch(x, next, own, t, |t|);
        SearchIsGreedy(x, own, t, |t|);
        assert t[..|t|] == t;
      }
    } else {
      var i: nat, k: nat :| 1 <= i <= |x| && k < |x| && Fall(x, next, i, x[k]) != Fall(x, own, i, x[k]);
      var t;
      if Fall(x, next, i, x[k]) < Fall(x, own, i, x[k]) {
        t := TellingText(x, next, own, i, x[k]);
      } else {
        t := TellingText(x, own, next, i, x[k]);
      }
      SearchIsGreedy(x, own, t, |t|);
      assert t[..|t|] == t;
      if Greedy(x, t, Search(x, next, t, |t|).hits) {
        GreedyUnique(x, t, Search(x, next, t, |t|).hits, Search(x, own, t, |t|).hits);
      }
    }
  }

  /** The pairing fails: for a needle stored as "aab" and a zero byte, the builder reads "ab" and the
      zero byte, and with any table right for those the searcher misses the needle in "aaab". */
  lemma PairingMisses(built: seq<int>)
    requires NextCorrect("ab\0", built) && Descends(built, 3)
    ensures "aab\0"[1..4] == "ab\0" && "aab\0"[..3] == "aab"
    ensures Occurs("aab", "aaab", 1) && Search("aab", built, "aaab", 4).hits == []
  {
    var x, y, t := "aab", "ab\0", "aaab";
    forall i | 2 <= i <= 4
      ensures built[i] == 1
    {
      assert NextCorrectAt(y, built, i);
      BorderRepeatsFirst(y[..i - 1], built[i] - 1);
    }
    assert t[1..4] == x;
    assert Fall(x, built, 1, 'a') == 1 && Fall(x, built, 2, 'a') == 2;
    assert Search(x, built, t, 1) == Scan(2, []);
    assert Search(x, built, t, 2) == Scan(3, []);
    assert Fall(x, built, 3, 'a') == Fall(x, built, 1, 'a');
    assert Search(x, built, t, 3) == Scan(2, []);
    assert Fall(x, built, 2, 'b') == Fall(x, built, 1, 'b') == Fall(x, built, 0, 'b') == 0;
  }

  /** The needle the driver ships: the integer 2 in little-endian order. */
  ghost const SHIPPED: seq<char> := [2 as char, 0 as char, 0 as char, 0 as char]

  /** Every link between the zero bytes of the shipped needle falls to the same place. */
  lemma ShippedFalls(next: seq<int>, i: nat, c: char)
    requires Descends(next, 4) && next[3] >= 1 && next[4] >= 1 && 1 <= i <= 4
    requires next[2] == 1
    ensures Fall(SHIPPED, next, i, c) ==
            if c == 0 as char && i > 1 then i else if c == 2 as char then 1 else 0
    decreases i
  {
    if i > 1 && c != 0 as char {
      ShippedFalls(next, next[i], c);
    }
  }

  lemma ShippedOwnTable() returns (own: seq<int>)
    ensures NextCorrect(SHIPPED, own) && own[2] == own[3] == own[4] == 1
  {
    own := [0, 0, 1, 1, 1, 1];
    forall i | 2 <= i <= 5
      ensures NextCorrectAt(SHIPPED, own, i)
    {
      var s := SHIPPED[..i - 1];
      forall k: nat | IsBorder(s, k)
        ensures k == 0
      {
        BorderRepeatsFirst(s, k);
      }
    }
  }

  /** The pairing is harmless for the shipped needle, whatever byte is stored after it. */
  lemma ShippedNeedleIsRight(built: seq<int>, after: char)
    requires NextCorrect((SHIPPED + [after])[1..5], built) && Descends(built, 4)
    ensures RightOnAllTexts(SHIPPED, built)
  {
    var y := (SHIPPED + [after])[1..5];
    assert NextCorrectAt(y, built, 2) && NextCorrectAt(y, built, 3) && NextCorrectAt(y, built, 4);
    var own := ShippedOwnTable();
    CorrectDescends(SHIPPED, own);
    forall i: nat, k: nat | 1 <= i <= 4 && k < 4
      ensures Fall(SHIPPED, built, i, SHIPPED[k]) == Fall(SHIPPED, own, i, SHIPPED[k])
    {
      ShippedFalls(built, i, SHIPPED[k]);
      ShippedFalls(own, i, SHIPPED[k]);
    }
    RightIffSameFalls(SHIPPED, built, own);
  }
}
