/**
 The registers of mkMPEngineBDBM updated in place by the two rules of the search.
 */
module MatchDevice {
  import opened MorrisPrattTables
  import opened MorrisPrattSearch
  import opened MatchEngine

  class Searcher {
    const needle: array<char>
    const mpNext: array<int>
    var needleLenReg: nat
    var haystackLenReg: nat
    var haystackBase: int
    var searching: bool
    var iReg: nat
    var jReg: nat
    var epochReg: nat
    var efifo: seq<Fetch>
    var haystack: seq<char>
    var locf: seq<int>
    ghost const job: Job

    ghost function State(): Engine
      reads this
    {
      Engine(searching, iReg, jReg, epochReg, efifo, haystack, locf)
    }

    ghost predicate Valid()
      reads this, needle, mpNext
    {
      && Proper(job) && Sane(job, State())
      && needle[..] == job.x && needleLenReg == |job.x|
      && mpNext[..] == job.next && haystackLenReg == job.n && haystackBase == job.base
    }

    /** As the set-up and the rule search leave it, with `stream` still to come in. */
    constructor (x: array<char>, next: array<int>, stream: seq<char>, n: nat, base: int)
      requires Proper(Job(x[..], next[..], stream, n, base))
      ensures Valid() && job == Job(x[..], next[..], stream, n, base) && State() == Begin(job)
      ensures needle == x && mpNext == next
    {
      needle, mpNext := x, next;
      needleLenReg, haystackLenReg, haystackBase := x.Length, n, base;
      searching, iReg, jReg, epochReg, efifo, haystack, locf := true, 1, 1, 0, [], stream, [];
      job := Job(x[..], next[..], stream, n, base);
    }

    method MatchNeedleReq() returns (fired: bool)
      requires Valid()
      modifies this`efifo, this`iReg
      ensures Valid() && State() == Step(job, old(State()), Rule.MatchNeedleReq)
      ensures fired == old(Enabled(job, State(), Rule.MatchNeedleReq))
    {
      fired := searching && |efifo| < FETCHES;
      if fired {
        efifo := efifo + [Fetch(epochReg, iReg)];
        iReg := 1;
      }
    }

    method MatchNeedleResp() returns (fired: bool)
      requires Valid()
      modifies this
      ensures Valid() && State() == Step(job, old(State()), Rule.MatchNeedleResp)
      ensures fired == old(Enabled(job, State(), Rule.MatchNeedleResp))
    {
      fired := searching && efifo != [] && (haystack != [] || jReg > haystackLenReg);
      if fired {
        var first := efifo[0];
        efifo := efifo[1..];
        if first.epoch == epochReg {
          Compare(first.i);
        }
      }
    }

    method Compare(i: nat)
      requires Valid() && InNeedle(job, i) && searching && (haystack != [] || jReg > haystackLenReg)
      modifies this`searching, this`locf, this`iReg, this`jReg, this`epochReg, this`haystack
      ensures Valid() && State() == MatchEngine.Compare(job, old(State()), i)
    {
      var j := jReg;
      if j > haystackLenReg {
        searching := false;
        locf := locf + [-1];
      } else if i == needleLenReg + 1 {
        locf := locf + [haystackBase + j - i];
      } else if needle[i - 1] != haystack[0] {
        var mp := mpNext[i];
        if mp == 0 {
          iReg := 1;
          jReg := j + 1;
          haystack := haystack[1..];
        } else {
          epochReg := (epochReg + 1) % EPOCHS;
          iReg := mp;
        }
      } else {
        haystack := haystack[1..];
        jReg := j + 1;
        epochReg := (epochReg + 1) % EPOCHS;
        iReg := i + 1;
      }
    }
  }
}
