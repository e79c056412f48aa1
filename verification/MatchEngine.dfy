/**
 The search engine of projects/flash_strstr_raw/MPEngineBDBM.bsv, which is what
 the driver's table is given to: a pipeline that fetches needle characters and
 links ahead, tells outdated fetches by a two-bit epoch, and looks for the end
 of the haystack before it looks for the end of the needle.
 */
module MatchEngine {
  import opened MorrisPrattTables
  import opened MorrisPrattSearch

  const EPOCHS := 4
  const FETCHES := 2
  const MAX_NEEDLE := 1024

  /** What the engine has been set up with: the needle and its table, the haystack as it comes in,
      how much of it to search, and the number its offsets start from. */
  datatype Job = Job(x: seq<char>, next: seq<int>, t: seq<char>, n: nat, base: int)

  /** The needle memory has ten address bits, and the haystack is there when it is needed. */
  ghost predicate Proper(k: Job) {
    |k.x| < MAX_NEEDLE && Descends(k.next, |k.x|) && k.n <= |k.t|
  }

  datatype Fetch = Fetch(epoch: nat, i: nat)

  datatype Engine = Engine(searching: bool, iReg: nat, jReg: nat, epochReg: nat, efifo: seq<Fetch>,
                           haystack: seq<char>, locf: seq<int>)

  datatype Rule = MatchNeedleReq | MatchNeedleResp

  /** As the rule search leaves it. */
  function Begin(k: Job): Engine {
    Engine(true, 1, 1, 0, [], k.t, [])
  }

  predicate InNeedle(k: Job, i: nat) {
    1 <= i <= |k.x| + 1
  }

  predicate Sane(k: Job, s: Engine) {
    InNeedle(k, s.iReg) && forall a :: 0 <= a < |s.efifo| ==> InNeedle(k, s.efifo[a].i)
  }

  predicate Enabled(k: Job, s: Engine, e: Rule) {
    && s.searching
    && match e
       case MatchNeedleReq => |s.efifo| < FETCHES
       case MatchNeedleResp => s.efifo != [] && (s.haystack != [] || s.jReg > k.n)
  }

  /** The body of matchNeedleResp for a fetch of the current epoch. */
  ghost function Compare(k: Job, s: Engine, i: nat): Engine
    requires Proper(k) && InNeedle(k, i) && (s.haystack != [] || s.jReg > k.n)
  {
    var m, j := |k.x|, s.jReg;
    if j > k.n then s.(searching := false, locf := s.locf + [-1])
    else if i == m + 1 then s.(locf := s.locf + [k.base + j - i])
    else if k.x[i - 1] != s.haystack[0] then
      if k.next[i] == 0 then s.(iReg := 1, jReg := j + 1, haystack := s.haystack[1..])
      else s.(epochReg := (s.epochReg + 1) % EPOCHS, iReg := k.next[i])
    else
      s.(haystack := s.haystack[1..], jReg := j + 1, epochReg := (s.epochReg + 1) % EPOCHS, iReg := i + 1)
  }

  ghost function Step(k: Job, s: Engine, e: Rule): (r: Engine)
    requires Proper(k) && Sane(k, s)
    ensures Sane(k, r)
  {
    if !Enabled(k, s, e) then s else
    match e
    case MatchNeedleReq => s.(efifo := s.efifo + [Fetch(s.epochReg, s.iReg)], iReg := 1)
    case MatchNeedleResp =>
      var r := s.(efifo := s.efifo[1..]);
      if s.efifo[0].epoch == s.epochReg then Compare(k, r, s.efifo[0].i) else r
  }

  /** Any order of the two rules is a run. */
  ghost function Run(k: Job, s: Engine, es: seq<Rule>): (r: Engine)
    requires Proper(k) && Sane(k, s)
    ensures Sane(k, r)
    decreases |es|
  {
    if es == [] then s else Run(k, Step(k, s, es[0]), es[1..])
  }

  // ----- the engine without its pipeline -----

  /** How many fetches are outdated. */
  function Outdated(q: seq<Fetch>, epoch: nat): (p: nat)
    ensures p <= |q| && (p < |q| ==> q[p].epoch == epoch)
    ensures forall a :: 0 <= a < p ==> q[a].epoch != epoch
  {
    if q == [] || q[0].epoch == epoch then 0 else 1 + Outdated(q[1..], epoch)
  }

  /** The place in the needle the engine is really at. */
  function Place(s: Engine): nat {
    var p := Outdated(s.efifo, s.epochReg);
    if p < |s.efifo| then s.efifo[p].i else s.iReg
  }

  /** Outdated fetches are of the last epoch only and come first; behind the fetch that counts, only the
      start of the needle has been fetched. */
  ghost predicate PipelineInv(s: Engine) {
    var p := Outdated(s.efifo, s.epochReg);
    && s.epochReg < EPOCHS && |s.efifo| <= FETCHES
    && (forall a :: 0 <= a < p ==> s.efifo[a].epoch == (s.epochReg + EPOCHS - 1) % EPOCHS)
    && (forall a :: p < a < |s.efifo| ==> s.efifo[a] == Fetch(s.epochReg, 1))
    && (p < |s.efifo| ==> s.iReg == 1)
  }

  function Offsets(base: int, hits: seq<nat>): (v: seq<int>)
    ensures |v| == |hits| && forall a :: 0 <= a < |hits| ==> v[a] == base + hits[a]
  {
    seq(|hits|, a requires 0 <= a < |hits| => base + hits[a])
  }

  /** The reports the searcher of mp.h has made after `n` characters. */
  ghost function Hits(k: Job, n: int): seq<nat>
    requires Proper(k) && n <= k.n
  {
    if n <= 0 then [] else Search(k.x, k.next, k.t, n).hits
  }

  /** At place `i`, with `j - 1` characters read, the engine is where the searcher of mp.h is, but that it
      has still to report what ends at the last character read. */
  ghost predicate Tracks(k: Job, i: nat, j: nat, located: seq<int>)
    requires Proper(k) && InNeedle(k, i) && 1 <= j <= k.n + 1
  {
    var s := Search(k.x, k.next, k.t, j - 1);
    if i == |k.x| + 1 then
      && located == Offsets(k.base, Hits(k, j - 2))
      && j - 1 >= |k.x| && s == Scan(1, Hits(k, j - 2) + [j - 1 - |k.x|])
    else
      && located == Offsets(k.base, s.hits)
      && (j <= k.n ==> Fall(k.x, k.next, i, k.t[j - 1]) == Fall(k.x, k.next, s.i, k.t[j - 1]))
      && (j == k.n + 1 ==> s.hits == Hits(k, k.n - 1))
  }

  ghost predicate EngineInv(k: Job, s: Engine)
    requires Proper(k)
  {
    && Sane(k, s)
    && if s.searching
       then
         && PipelineInv(s)
         && 1 <= s.jReg <= k.n + 1 && s.haystack == k.t[s.jReg - 1..]
         && Tracks(k, Place(s), s.jReg, s.locf)
       else s.locf == Offsets(k.base, Hits(k, k.n - 1)) + [-1]
  }

  // ----- one comparison -----

  lemma ReportTracks(k: Job, j: nat, located: seq<int>)
    requires Proper(k) && |k.x| > 0 && 1 <= j <= k.n && Tracks(k, |k.x| + 1, j, located)
    ensures Tracks(k, 1, j, located + [k.base + j - (|k.x| + 1)])
  {
    assert located + [k.base + j - (|k.x| + 1)] == Offsets(k.base, Hits(k, j - 2) + [j - 1 - |k.x|]);
  }

  lemma LinkTracks(k: Job, i: nat, j: nat, located: seq<int>)
    requires Proper(k) && 1 <= i <= |k.x| && 1 <= j <= k.n && Tracks(k, i, j, located)
    requires k.x[i - 1] != k.t[j - 1] && k.next[i] > 0
    ensures k.next[i] < i && Tracks(k, k.next[i], j, located)
  {
  }

  /** The searcher of mp.h reads the character with its inner loop, the engine has finished that loop. */
  lemma ReadTracks(k: Job, i: nat, j: nat, located: seq<int>, r: nat)
    requires Proper(k) && 1 <= i <= |k.x| && 1 <= j <= k.n && Tracks(k, i, j, located)
    requires if k.x[i - 1] != k.t[j - 1] then k.next[i] == 0 && r == 1 else r == i + 1
    ensures Tracks(k, r, j + 1, located)
  {
    var c := k.t[j - 1];
    var s := Search(k.x, k.next, k.t, j - 1);
    assert Fall(k.x, k.next, i, c) == r - 1;
    assert Search(k.x, k.next, k.t, j) == Advance(k.x, k.next, s, c, j);
  }

  // ----- the pipeline -----

  lemma OutdatedIs(q: seq<Fetch>, epoch: nat, p: nat)
    requires p <= |q| && (p < |q| ==> q[p].epoch == epoch)
    requires forall a :: 0 <= a < p ==> q[a].epoch != epoch
    ensures Outdated(q, epoch) == p
  {
  }

  lemma RequestKeeps(k: Job, s: Engine)
    requires Proper(k) && EngineInv(k, s) && Enabled(k, s, MatchNeedleReq)
    ensures EngineInv(k, Step(k, s, MatchNeedleReq))
  {
    var p, q := Outdated(s.efifo, s.epochReg), s.efifo + [Fetch(s.epochReg, s.iReg)];
    OutdatedIs(q, s.epochReg, p);
  }

  /** An outdated fetch is dropped. */
  lemma DropKeeps(k: Job, s: Engine)
    requires Proper(k) && EngineInv(k, s) && Enabled(k, s, MatchNeedleResp)
    requires s.efifo[0].epoch != s.epochReg
    ensures EngineInv(k, Step(k, s, MatchNeedleResp))
    ensures Place(Step(k, s, MatchNeedleResp)) == Place(s)
  {
    var p := Outdated(s.efifo, s.epochReg);
    OutdatedIs(s.efifo[1..], s.epochReg, p - 1);
  }

  /** Going on at the start of the needle, what has been fetched behind is right. */
  lemma Restarted(s: Engine, r: Engine)
    requires PipelineInv(s) && s.efifo != [] && s.efifo[0].epoch == s.epochReg
    requires r.efifo == s.efifo[1..] && r.epochReg == s.epochReg && r.iReg == 1
    ensures PipelineInv(r) && Place(r) == 1
  {
    OutdatedIs(r.efifo, r.epochReg, 0);
  }

  /** Going on anywhere else, it is outdated. */
  lemma Redirected(s: Engine, r: Engine)
    requires PipelineInv(s) && s.efifo != [] && s.efifo[0].epoch == s.epochReg
    requires r.efifo == s.efifo[1..] && r.epochReg == (s.epochReg + 1) % EPOCHS
    ensures PipelineInv(r) && Place(r) == r.iReg
  {
    OutdatedIs(s.efifo, s.epochReg, 0);
    OutdatedIs(r.efifo, r.epochReg, |r.efifo|);
  }

  lemma EndKeeps(k: Job, s: Engine)
    requires Proper(k) && |k.x| > 0 && EngineInv(k, s) && Enabled(k, s, MatchNeedleResp)
    requires s.efifo[0].epoch == s.epochReg && s.jReg > k.n
    ensures EngineInv(k, Step(k, s, MatchNeedleResp))
  {
    OutdatedIs(s.efifo, s.epochReg, 0);
  }

  /** A fetch that counts, with a character left to read. */
  ghost predicate Comparing(k: Job, s: Engine) {
    && Proper(k) && |k.x| > 0 && EngineInv(k, s) && Enabled(k, s, MatchNeedleResp)
    && s.efifo[0].epoch == s.epochReg && s.jReg <= k.n
  }

  lemma ReportKeeps(k: Job, s: Engine, r: Engine)
    requires Comparing(k, s) && s.efifo[0].i == |k.x| + 1
    requires r == s.(efifo := s.efifo[1..], locf := s.locf + [k.base + s.jReg - (|k.x| + 1)])
    ensures EngineInv(k, r)
  {
    OutdatedIs(s.efifo, s.epochReg, 0);
    Restarted(s, r);
    ReportTracks(k, s.jReg, s.locf);
  }

  lemma LinkKeeps(k: Job, s: Engine, r: Engine, i: nat)
    requires Comparing(k, s) && s.efifo[0].i == i <= |k.x| && k.x[i - 1] != k.t[s.jReg - 1] && k.next[i] > 0
    requires r == s.(efifo := s.efifo[1..], epochReg := (s.epochReg + 1) % EPOCHS, iReg := k.next[i])
    ensures EngineInv(k, r)
  {
    OutdatedIs(s.efifo, s.epochReg, 0);
    Redirected(s, r);
    LinkTracks(k, i, s.jReg, s.locf);
  }

  lemma MissKeeps(k: Job, s: Engine, r: Engine, i: nat)
    requires Comparing(k, s) && s.efifo[0].i == i <= |k.x| && k.x[i - 1] != k.t[s.jReg - 1] && k.next[i] == 0
    requires r == s.(efifo := s.efifo[1..], iReg := 1, jReg := s.jReg + 1, haystack := s.haystack[1..])
    ensures EngineInv(k, r)
  {
    OutdatedIs(s.efifo, s.epochReg, 0);
    Restarted(s, r);
    ReadTracks(k, i, s.jReg, s.locf, 1);
  }

  lemma MatchKeeps(k: Job, s: Engine, r: Engine, i: nat)
    requires Comparing(k, s) && s.efifo[0].i == i <= |k.x| && k.x[i - 1] == k.t[s.jReg - 1]
    requires r == s.(efifo := s.efifo[1..], haystack := s.haystack[1..], jReg := s.jReg + 1,
                     epochReg := (s.epochReg + 1) % EPOCHS, iReg := i + 1)
    ensures EngineInv(k, r)
  {
    OutdatedIs(s.efifo, s.epochReg, 0);
    Redirected(s, r);
    ReadTracks(k, i, s.jReg, s.locf, i + 1);
  }

  lemma CompareKeeps(k: Job, s: Engine)
    requires Comparing(k, s)
    ensures EngineInv(k, Step(k, s, MatchNeedleResp))
  {
    var i, j, r := s.efifo[0].i, s.jReg, Step(k, s, MatchNeedleResp);
    assert s.haystack[0] == k.t[j - 1];
    if i == |k.x| + 1 {
      ReportKeeps(k, s, r);
    } else if k.x[i - 1] == k.t[j - 1] {
      MatchKeeps(k, s, r, i);
    } else if k.next[i] > 0 {
      LinkKeeps(k, s, r, i);
    } else {
      MissKeeps(k, s, r, i);
    }
  }

  lemma StepKeepsInv(k: Job, s: Engine, e: Rule)
    requires Proper(k) && |k.x| > 0 && EngineInv(k, s)
    ensures EngineInv(k, Step(k, s, e))
  {
    if Enabled(k, s, e) {
      if e.MatchNeedleReq? {
        RequestKeeps(k, s);
      } else if s.efifo[0].epoch != s.epochReg {
        DropKeeps(k, s);
      } else if s.jReg > k.n {
        EndKeeps(k, s);
      } else {
        CompareKeeps(k, s);
      }
    }
  }

  lemma BeginInv(k: Job)
    requires Proper(k) && |k.x| > 0
    ensures EngineInv(k, Begin(k))
  {
    assert Offsets(k.base, []) == [];
  }

  lemma {:induction false} RunKeepsInv(k: Job, s: Engine, es: seq<Rule>)
    requires Proper(k) && |k.x| > 0 && EngineInv(k, s)
    ensures EngineInv(k, Run(k, s, es))
    decreases |es|
  {
    if es != [] {
      StepKeepsInv(k, s, es[0]);
      RunKeepsInv(k, Step(k, s, es[0]), es[1..]);
    }
  }

  // ----- what the engine reports -----

  /** However fetches and comparisons interleave, an engine that has come to the end has reported what the
      searcher of mp.h reports before it reads the last character. */
  lemma EngineReports(k: Job, es: seq<Rule>)
    requires Proper(k) && |k.x| > 0 && !Run(k, Begin(k), es).searching
    ensures Run(k, Begin(k), es).locf == Offsets(k.base, Hits(k, k.n - 1)) + [-1]
  {
    BeginInv(k);
    RunKeepsInv(k, Begin(k), es);
  }

  /** With a table right for the needle these are the leftmost non-overlapping occurrences in the haystack
      without its last character. */
  lemma EngineIsGreedy(k: Job)
    requires Proper(k) && |k.x| > 0 && k.n > 0 && NextCorrect(k.x, k.next)
    ensures Greedy(k.x, k.t[..k.n - 1], Hits(k, k.n - 1))
  {
    SearchIsGreedy(k.x, k.next, k.t, k.n - 1);
  }
}
