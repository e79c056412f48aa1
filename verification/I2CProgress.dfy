/**
 The I2C master does play: a started request has been heard once its phases
 have ticked by, and every request accepted can be heard in the end.
 */
module I2CProgress {
  import opened I2CBus
  import opened I2CMaster
  import opened I2CRoundTrip

  function Ticks(slaves: seq<bool>): (es: seq<Event>)
    ensures |es| == |slaves|
  {
    if slaves == [] then [] else [Tick(slaves[0])] + Ticks(slaves[1..])
  }

  lemma RunNext(m: Master, e: Event, es: seq<Event>)
    requires Ready(m)
    ensures Run(m, [e] + es) == Run(Step(m, e), es)
    ensures SlaveObeysRun(m, [e] + es) <==> SlaveObeys(m, e) && SlaveObeysRun(Step(m, e), es)
  {
    assert ([e] + es)[1..] == es;
  }

  /** A phase played, by what it does to the registers that say how far the request is. */
  lemma PlayedOne(m: Master, slave: bool)
    requires Ready(m) && Plays(m)
    ensures var r := Step(m, Tick(slave));
            && r.running == (m.playIndex > 0) && (r.running ==> r.playIndex == m.playIndex - 1)
            && r.request == m.request && r.served == m.served && r.fRequest == m.fRequest
            && (r.running ==> r.fResponse == m.fResponse)
  {
  }

  lemma {:induction false} PlaysThrough(m: Master, slaves: seq<bool>)
    requires MasterInv(m) && m.running && |slaves| == m.playIndex + 1 && SlaveObeysRun(m, Ticks(slaves))
    requires m.request.write || |m.fResponse| < QUEUE_DEPTH
    ensures var r := Run(m, Ticks(slaves));
            MasterInv(r) && !r.running && r.served == m.served && r.fRequest == m.fRequest
    decreases |slaves|
  {
    var e := Tick(slaves[0]);
    RunNext(m, e, Ticks(slaves[1..]));
    StepKeepsInv(m, e);
    PlayedOne(m, slaves[0]);
    if m.playIndex > 0 {
      PlaysThrough(Step(m, e), slaves[1..]);
    } else {
      assert Ticks(slaves[1..]) == [];
    }
  }

  function HeardBy(m: Master): seq<seq<seq<bool>>>
    requires Ready(m)
  {
    Listen(m.bus, |m.bus|).heard
  }

  lemma HeardSays(m: Master)
    requires MasterInv(m)
    ensures var heard := HeardBy(m);
            && |m.served| == |heard| + (if m.running then 1 else 0)
            && (m.running ==> m.request == m.served[|heard|])
            && (forall k :: 0 <= k < |heard| ==> Understood(m.served[k], heard[k]))
            && m.submitted == m.served + m.fRequest
            && m.answers == AllDataRead(heard, |heard|)
  {
  }

  /** Of two states of an idle or playing master, one transaction has been heard between them, the request's;
      and the later master is idle and has answered what was heard. */
  ghost predicate HeardNext(m: Master, r: Master, request: Request)
    requires Ready(m) && Ready(r)
  {
    && !r.running
    && |HeardBy(r)| == |HeardBy(m)| + 1
    && Understood(request, HeardBy(r)[|HeardBy(m)|])
    && r.answers == AllDataRead(HeardBy(r), |HeardBy(r)|)
  }

  /** With a slave that obeys and, for a read, room for the response, a request under way has been heard as
      asked after as many ticks as it has phases left. */
  lemma {:induction false} HeardAfterItsTicks(m: Master, slaves: seq<bool>)
    requires MasterInv(m) && m.running && |slaves| == m.playIndex + 1 && SlaveObeysRun(m, Ticks(slaves))
    requires m.request.write || |m.fResponse| < QUEUE_DEPTH
    ensures HeardNext(m, Run(m, Ticks(slaves)), m.request)
  {
    PlaysThrough(m, slaves);
    HeardSays(m);
    HeardSays(Run(m, Ticks(slaves)));
  }

  /** The start rule leaves a request with all its phases to play. */
  lemma StartedWhole(m: Master)
    requires MasterInv(m) && !m.running && m.fRequest != []
    ensures var r := Step(m, StartRule);
            && MasterInv(r) && r.running && r.request == m.fRequest[0] && r.playIndex + 1 == Length(r.request)
            && HeardBy(r) == HeardBy(m) && r.fResponse == m.fResponse
  {
    StepKeepsInv(m, StartRule);
  }

  /** An idle master has heard its next request when it has started it and as many ticks have come as the
      request has phases. */
  lemma {:induction false} NextHeard(m: Master, slaves: seq<bool>)
    requires MasterInv(m) && !m.running && m.fRequest != [] && |slaves| == Length(m.fRequest[0])
    requires SlaveObeysRun(Step(m, StartRule), Ticks(slaves))
    requires m.fRequest[0].write || |m.fResponse| < QUEUE_DEPTH
    ensures HeardNext(m, Run(Step(m, StartRule), Ticks(slaves)), m.fRequest[0])
  {
    StartedWhole(m);
    HeardAfterItsTicks(Step(m, StartRule), slaves);
  }

  /** An event that brings the master nearer to having played everything. */
  lemma GoesOn(m: Master) returns (e: Event)
    requires MasterInv(m) && (m.running || m.fRequest != [])
    ensures !e.Submit? && SlaveObeys(m, e)
    ensures var r := Step(m, e);
            && MasterInv(r) && r.submitted == m.submitted
            && (|| |r.fRequest| < |m.fRequest|
                || (|r.fRequest| == |m.fRequest|
                    && (Left(r) < Left(m) || (Left(r) == Left(m) && |r.fResponse| < |m.fResponse|))))
  {
    if m.running && !Plays(m) {
      e := TakeResponse;
    } else if m.running {
      e := Tick(Line(m).sda);
    } else {
      e := StartRule;
    }
    StepKeepsInv(m, e);
  }

  function Left(m: Master): nat {
    if m.running then m.playIndex + 1 else 0
  }

  /** The master is idle, and a listener has heard exactly these requests. */
  ghost predicate HasHeard(m: Master, requests: seq<Request>)
    requires Ready(m)
  {
    && !m.running && m.fRequest == [] && m.submitted == requests
    && |HeardBy(m)| == |requests|
    && forall k :: 0 <= k < |requests| ==> Understood(requests[k], HeardBy(m)[k])
  }

  /** From any state reached, with a slave that obeys and a user that collects responses, every request
      accepted so far is heard, as asked and in order. */
  lemma {:induction false} AllHeard(m: Master) returns (es: seq<Event>)
    requires MasterInv(m)
    ensures SlaveObeysRun(m, es) && forall k :: 0 <= k < |es| ==> !es[k].Submit?
    ensures HasHeard(Run(m, es), m.submitted)
    decreases |m.fRequest|, Left(m), |m.fResponse|
  {
    if !m.running && m.fRequest == [] {
      es := [];
      HeardSays(m);
    } else {
      var e := GoesOn(m);
      var rest := AllHeard(Step(m, e));
      RunNext(m, e, rest);
      es := [e] + rest;
    }
  }

  /** So whatever has been asked for in a run from reset, its user can wait until just that has been heard. */
  lemma AskedIsHeard(m: Master, es: seq<Event>) returns (rest: seq<Event>)
    requires Reset(m) && SlaveObeysRun(m, es)
    ensures SlaveObeysRun(Run(m, es), rest) && HasHeard(Run(Run(m, es), rest), Asked(m, es))
  {
    Reached(m, es);
    rest := AllHeard(Run(m, es));
  }
}
