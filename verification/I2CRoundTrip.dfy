/**
 What the I2C master plays is heard as what it was asked: every request is
 decoded from the bus as itself, and every response is the data heard.
 */
module I2CRoundTrip {
  import opened I2CBus
  import opened I2CMaster

  // ----- the columns of the tables -----

  datatype Column = StartColumn | RestartColumn | BitColumn | StopColumn

  function KindOf(r: Request, c: nat): Column {
    if c == 0 then StartColumn
    else if c == (if r.write then 28 else 38) then StopColumn
    else if !r.write && c == 19 then RestartColumn
    else BitColumn
  }

  function Columns(r: Request): nat {
    if r.write then WRITE_COLUMNS else READ_COLUMNS
  }

  predicate Driven(r: Request, c: nat) {
    if r.write then WriteOutEn(c).first else ReadOutEn(c).first
  }

  predicate BitAt(r: Request, c: nat)
    requires Sized(r)
  {
    if r.write then WriteData(r, c).first else ReadData(r, c).first
  }

  predicate Sampled(r: Request, c: nat) {
    !r.write && 29 <= c <= 36
  }

  /** The column, and the phase of it, played when `tau` phases have been played before. */
  ghost function PlayedColumn(tau: nat): (c: nat)
    ensures 3 * c <= tau < 3 * c + 3
  {
    assert 3 * (tau / 3) <= tau < 3 * (tau / 3) + 3;
    var c: nat :| 3 * c <= tau < 3 * c + 3;
    c
  }

  ghost function PhaseIn(tau: nat): nat {
    tau - 3 * PlayedColumn(tau)
  }

  /** Bit `i` of the packed tables is phase `q` of column `c`. */
  ghost predicate PlayedAs(r: Request, i: nat, c: nat, q: nat)
    requires Sized(r) && i < Length(r)
  {
    match KindOf(r, c)
    case StartColumn => Clock(r, i) == (q < 2) && Data(r, i) == (q == 0) && OutEn(r, i) && !Sample(r, i)
    case RestartColumn => Clock(r, i) && Data(r, i) == (q < 2) && OutEn(r, i) && !Sample(r, i)
    case StopColumn => Clock(r, i) == (q > 0) && Data(r, i) == (q == 2) && OutEn(r, i) && !Sample(r, i)
    case BitColumn =>
      && Clock(r, i) == (q == 1)
      && OutEn(r, i) == Driven(r, c)
      && (Driven(r, c) ==> Data(r, i) == BitAt(r, c))
      && Sample(r, i) == (q == 1 && Sampled(r, c))
  }

  lemma TableAt(r: Request, i: nat, c: nat, q: nat)
    requires Sized(r) && i < Length(r) && ColumnOf(r, i) == c < Columns(r) && q < 3 && i % 3 == 2 - q
    ensures PlayedAs(r, i, c, q)
  {
  }

  /** The phase played when `tau` phases have been played before, read off the tables. */
  lemma PhaseOf(r: Request, tau: nat)
    requires Sized(r) && tau < Length(r)
    ensures PlayedColumn(tau) < Columns(r)
    ensures PlayedAs(r, Length(r) - 1 - tau, PlayedColumn(tau), PhaseIn(tau))
  {
    Places(r, tau, Length(r) - 1 - tau, PlayedColumn(tau), PhaseIn(tau));
    TableAt(r, Length(r) - 1 - tau, PlayedColumn(tau), PhaseIn(tau));
  }

  lemma Places(r: Request, tau: nat, i: nat, c: nat, q: nat)
    requires i + tau + 1 == Length(r) && tau == 3 * c + q && q < 3
    ensures ColumnOf(r, i) == c < Columns(r) && i % 3 == 2 - q
  {
  }

  // ----- what the listener has heard part of the way through -----

  /** The column of the first bit since the last START, before column `c`. */
  function SegmentStart(r: Request, c: nat): nat {
    if !r.write && c >= 20 then 20 else 1
  }

  /** The bits heard for the columns from `base` on: those the master drove are as in its table. */
  ghost predicate HeardAs(r: Request, base: nat, bits: seq<bool>)
    requires Sized(r)
  {
    forall i {:trigger bits[i]} :: 0 <= i < |bits| && Driven(r, base + i) ==> bits[i] == BitAt(r, base + i)
  }

  /** The listener when the columns before `c` have been played. */
  ghost predicate AtColumn(r: Request, c: nat, s: Listener)
    requires Sized(r)
  {
    && s.active && c >= 1
    && |s.bits| == c - SegmentStart(r, c) >= 0
    && HeardAs(r, SegmentStart(r, c), s.bits)
    && if SegmentStart(r, c) == 1 then s.segments == []
       else |s.segments| == 1 && |s.segments[0]| == 18 && HeardAs(r, 1, s.segments[0])
  }

  /** The shift register holds, last, the data bits heard so far, the latched one included. */
  ghost predicate Shifted(r: Request, c: nat, s: Listener, readData: seq<bool>) {
    !r.write && c >= 29 ==>
      var seen := if s.latch.Some? && c <= 36 then s.bits + [s.latch.value] else s.bits;
      var n := if |seen| >= 17 then 8 else |seen| - 9;
      |readData| == 8 && 0 <= n && InRegister(seen, readData, n)
  }

  /** The last `n` bits of the register are the `n` bits after the address byte. */
  ghost predicate InRegister(seen: seq<bool>, readData: seq<bool>, n: nat)
    requires n <= 8 == |readData| && 9 + n <= |seen|
  {
    forall k {:trigger SameBit(seen, readData, n, k)} :: 0 <= k < n ==> SameBit(seen, readData, n, k)
  }

  predicate SameBit(seen: seq<bool>, readData: seq<bool>, n: nat, k: nat)
    requires k < n <= 8 == |readData| && 9 + n <= |seen|
  {
    readData[8 - n + k] == seen[9 + k]
  }

  /** The bus, the listener and the shift register after phase `q` of column `c`. */
  ghost predicate AfterPhase(r: Request, c: nat, q: nat, l: Wire, s: Listener, readData: seq<bool>)
    requires Sized(r)
  {
    match KindOf(r, c)
    case StartColumn =>
      if q == 0 then l == Wire(true, true) && s == SILENT.(heard := s.heard)
      else l == Wire(q == 1, false) && AtColumn(r, 1, s) && s.latch == None
    case BitColumn =>
      if q == 2 then !l.scl && AtColumn(r, c + 1, s) && s.latch == None && Shifted(r, c + 1, s, readData)
      else
        && l.scl == (q == 1)
        && (Driven(r, c) ==> l.sda == BitAt(r, c))
        && AtColumn(r, c, s) && s.latch == (if q == 1 then Some(l.sda) else None)
        && Shifted(r, c, s, readData)
    case RestartColumn =>
      if q == 2 then l == Wire(true, false) && AtColumn(r, 20, s) && s.latch == None
      else l == Wire(true, true) && AtColumn(r, 19, s) && s.latch == Some(true)
    case StopColumn =>
      && l == Wire(q == 1, false)
      && AtColumn(r, c, s) && s.latch == (if q == 1 then Some(false) else None)
      && Shifted(r, c, s, readData)
  }

  /** The listener before phase `q` of column `c`. */
  ghost predicate Before(r: Request, c: nat, q: nat, l: Wire, s: Listener, rd: seq<bool>)
    requires Sized(r)
  {
    if q > 0 then AfterPhase(r, c, q - 1, l, s, rd)
    else if c == 0 then l == Wire(true, true) && s == SILENT.(heard := s.heard)
    else
      && AtColumn(r, c, s) && s.latch == None && Shifted(r, c, s, rd)
      && (l.scl ==> KindOf(r, c) == BitColumn && l == Wire(true, false))
  }

  /** After the last phase of a column the listener is where the next one begins. */
  lemma BeforeNext(r: Request, c: nat, q: nat, l: Wire, s: Listener, rd: seq<bool>)
    requires Sized(r) && c < Columns(r) && q < 3 && 3 * c + q + 1 < Length(r) && AfterPhase(r, c, q, l, s, rd)
    ensures if q < 2 then Before(r, c, q + 1, l, s, rd) else Before(r, c + 1, 0, l, s, rd)
  {
  }

  // ----- one phase -----

  lemma StartPhase(r: Request, q: nat, l: Wire, s: Listener, rd: seq<bool>, l': Wire)
    requires Sized(r) && q < 3 && Before(r, 0, q, l, s, rd) && l' == Wire(q < 2, q == 0)
    ensures AfterPhase(r, 0, q, l', Hear(s, ChangeOf(l, l')), rd)
    ensures Hear(s, ChangeOf(l, l')).heard == s.heard
  {
  }

  lemma BitGrows(r: Request, c: nat, s: Listener, b: bool, s': Listener)
    requires Sized(r) && AtColumn(r, c, s) && KindOf(r, c) == BitColumn && c < Columns(r)
    requires Driven(r, c) ==> b == BitAt(r, c)
    requires s' == s.(bits := s.bits + [b], latch := None)
    ensures AtColumn(r, c + 1, s')
  {
  }

  /** A sample shifts in the bit the listener is about to latch. */
  lemma SampleShifts(r: Request, c: nat, s: Listener, rd: seq<bool>, b: bool, s': Listener, rd': seq<bool>)
    requires s.latch == None && Shifted(r, c, s, rd) && |rd| == 8
    requires !r.write && c >= 29 ==> |s.bits| == c - 20
    requires s' == s.(latch := Some(b))
    requires rd' == if Sampled(r, c) then rd[1..] + [b] else rd
    ensures Shifted(r, c, s', rd')
  {
    if !r.write && 29 <= c <= 36 {
      ShiftsOne(s.bits, rd, c - 29, b);
    }
  }

  lemma ShiftsOne(bits: seq<bool>, rd: seq<bool>, n: nat, b: bool)
    requires n <= 7 && |bits| == 9 + n && |rd| == 8 && InRegister(bits, rd, n)
    ensures InRegister(bits + [b], rd[1..] + [b], n + 1)
  {
    var seen, shifted, m := bits + [b], rd[1..] + [b], n + 1;
    forall k | 0 <= k < m
      ensures SameBit(seen, shifted, m, k)
    {
      assert k < n ==> SameBit(bits, rd, n, k);
    }
  }

  lemma StaysInRegister(bits: seq<bool>, rd: seq<bool>, b: bool)
    requires |bits| >= 17 && |rd| == 8 && InRegister(bits, rd, 8)
    ensures InRegister(bits + [b], rd, 8)
  {
    var seen := bits + [b];
    forall k | 0 <= k < 8
      ensures SameBit(seen, rd, 8, k)
    {
      assert SameBit(bits, rd, 8, k);
    }
  }

  /** The latched bit becoming one of the bits changes nothing seen by the shift register. */
  lemma FallShifts(r: Request, c: nat, s: Listener, rd: seq<bool>, s': Listener)
    requires s.latch.Some? && Shifted(r, c, s, rd) && |rd| == 8
    requires !r.write && c >= 28 ==> |s.bits| == c - 20
    requires KindOf(r, c) == BitColumn
    requires s' == s.(bits := s.bits + [s.latch.value], latch := None)
    ensures Shifted(r, c + 1, s', rd)
  {
    if !r.write && c > 36 {
      StaysInRegister(s.bits, rd, s.latch.value);
    } else if !r.write && c >= 29 {
      assert s'.bits == s.bits + [s.latch.value] && |s'.bits| < 18;
    }
  }

  /** A bit column: SCL low with the bit on the line, then high, then low again. */
  lemma BitFirst(r: Request, c: nat, l: Wire, s: Listener, rd: seq<bool>, l': Wire)
    requires Sized(r) && KindOf(r, c) == BitColumn && AtColumn(r, c, s) && s.latch == None && Shifted(r, c, s, rd)
    requires !l'.scl && (Driven(r, c) ==> l'.sda == BitAt(r, c))
    ensures Hear(s, ChangeOf(l, l')) == s && AfterPhase(r, c, 0, l', s, rd)
  {
  }

  lemma BitRises(r: Request, c: nat, l: Wire, s: Listener, rd: seq<bool>, l': Wire, rd': seq<bool>)
    requires Sized(r) && KindOf(r, c) == BitColumn && |rd| == 8 && AfterPhase(r, c, 0, l, s, rd)
    requires l'.scl && l'.sda == l.sda && rd' == if Sampled(r, c) then rd[1..] + [l.sda] else rd
    ensures AfterPhase(r, c, 1, l', Hear(s, ChangeOf(l, l')), rd') && Hear(s, ChangeOf(l, l')).heard == s.heard
  {
    SampleShifts(r, c, s, rd, l'.sda, s.(latch := Some(l'.sda)), rd');
  }

  lemma BitFalls(r: Request, c: nat, l: Wire, s: Listener, rd: seq<bool>, l': Wire)
    requires Sized(r) && KindOf(r, c) == BitColumn && c < Columns(r) && |rd| == 8 && AfterPhase(r, c, 1, l, s, rd)
    requires !l'.scl
    ensures AfterPhase(r, c, 2, l', Hear(s, ChangeOf(l, l')), rd) && Hear(s, ChangeOf(l, l')).heard == s.heard
  {
    var s' := s.(bits := s.bits + [s.latch.value], latch := None);
    BitGrows(r, c, s, s.latch.value, s');
    FallShifts(r, c, s, rd, s');
  }

  lemma BitPhase(r: Request, c: nat, q: nat, l: Wire, s: Listener, rd: seq<bool>, l': Wire, rd': seq<bool>)
    requires Sized(r) && c < Columns(r) && KindOf(r, c) == BitColumn && q < 3 && |rd| == 8
    requires Before(r, c, q, l, s, rd)
    requires l'.scl == (q == 1) && (Driven(r, c) ==> l'.sda == BitAt(r, c))
    requires q == 1 && !Driven(r, c) ==> l'.sda == l.sda
    requires rd' == if q == 1 && Sampled(r, c) then rd[1..] + [l.sda] else rd
    ensures AfterPhase(r, c, q, l', Hear(s, ChangeOf(l, l')), rd')
    ensures Hear(s, ChangeOf(l, l')).heard == s.heard
  {
    if q == 0 {
      BitFirst(r, c, l, s, rd, l');
    } else if q == 1 {
      BitRises(r, c, l, s, rd, l', rd');
    } else {
      BitFalls(r, c, l, s, rd, l');
    }
  }

  lemma RestartPhase(r: Request, q: nat, l: Wire, s: Listener, rd: seq<bool>, l': Wire)
    requires Sized(r) && !r.write && q < 3 && Before(r, 19, q, l, s, rd) && l' == Wire(true, q < 2)
    ensures AfterPhase(r, 19, q, l', Hear(s, ChangeOf(l, l')), rd)
    ensures Hear(s, ChangeOf(l, l')).heard == s.heard
  {
  }

  /** A bit latched outside the data columns changes nothing. */
  lemma LatchUnseen(r: Request, c: nat, s: Listener, s': Listener, rd: seq<bool>)
    requires Sized(r) && (r.write || c < 29 || c > 36) && AtColumn(r, c, s) && Shifted(r, c, s, rd)
    requires s' == s.(latch := s'.latch)
    ensures AtColumn(r, c, s') && Shifted(r, c, s', rd)
  {
  }

  lemma StopFirst(r: Request, c: nat, l: Wire, s: Listener, rd: seq<bool>)
    requires Sized(r) && c == Columns(r) - 1 && AtColumn(r, c, s) && s.latch == None && Shifted(r, c, s, rd)
    ensures Hear(s, ChangeOf(l, Wire(false, false))) == s && AfterPhase(r, c, 0, Wire(false, false), s, rd)
  {
  }

  lemma StopRises(r: Request, c: nat, l: Wire, s: Listener, rd: seq<bool>)
    requires Sized(r) && c == Columns(r) - 1 && AfterPhase(r, c, 0, l, s, rd)
    ensures var s' := Hear(s, ChangeOf(l, Wire(true, false)));
            AfterPhase(r, c, 1, Wire(true, false), s', rd) && s'.heard == s.heard
  {
    LatchUnseen(r, c, s, s.(latch := Some(false)), rd);
  }

  lemma StopPhase(r: Request, q: nat, l: Wire, s: Listener, rd: seq<bool>, l': Wire)
    requires Sized(r) && q < 2 && Before(r, Columns(r) - 1, q, l, s, rd) && l' == Wire(q == 1, false)
    ensures AfterPhase(r, Columns(r) - 1, q, l', Hear(s, ChangeOf(l, l')), rd)
    ensures Hear(s, ChangeOf(l, l')).heard == s.heard
  {
    var c := Columns(r) - 1;
    if q == 0 {
      StopFirst(r, c, l, s, rd);
    } else {
      StopRises(r, c, l, s, rd);
    }
  }

  /** What a request asks, and what a message says, agree. */
  ghost predicate Understood(r: Request, t: seq<seq<bool>>) {
    match Decode(t)
    case Some(WriteMessage(slave, address, data)) =>
      r.write && slave == r.slaveaddr && address == r.address && data == r.data
    case Some(ReadMessage(slave, address, _)) =>
      !r.write && slave == r.slaveaddr && address == r.address
    case None => false
  }

  function DataRead(t: seq<seq<bool>>): seq<seq<bool>> {
    match Decode(t)
    case Some(ReadMessage(_, _, data)) => [data]
    case _ => []
  }

  /** The last phase is the STOP: what was heard since the START is the request, and for a read the data
      heard is what is in the shift register. */
  lemma WriteStops(r: Request, s: Listener)
    requires Sized(r) && r.write && AtColumn(r, 28, s)
    ensures Understood(r, s.segments + [s.bits]) && DataRead(s.segments + [s.bits]) == []
  {
    var b := s.bits;
    assert b[..7] == r.slaveaddr;
    assert b[9..17] == r.address;
    assert b[18..26] == r.data;
    assert !b[7];
  }

  lemma ReadStops(r: Request, s: Listener, rd: seq<bool>)
    requires Sized(r) && !r.write && AtColumn(r, 38, s) && Shifted(r, 38, s, rd)
    ensures Understood(r, s.segments + [s.bits]) && DataRead(s.segments + [s.bits]) == [rd]
  {
    var a, b := s.segments[0], s.bits;
    assert a[..7] == r.slaveaddr && b[..7] == r.slaveaddr;
    assert a[9..17] == r.address;
    assert !a[7] && b[7];
    forall k | 0 <= k < 8
      ensures b[9..17][k] == rd[k]
    {
      assert SameBit(b, rd, 8, k);
    }
    assert b[9..17] == rd;
    assert s.segments + [s.bits] == [a, b];
  }

  lemma LastPhase(r: Request, l: Wire, s: Listener, rd: seq<bool>, t: seq<seq<bool>>)
    requires Sized(r) && AfterPhase(r, Columns(r) - 1, 1, l, s, rd) && t == s.segments + [s.bits]
    ensures Hear(s, ChangeOf(l, Wire(true, true))) == SILENT.(heard := s.heard + [t])
    ensures Understood(r, t) && DataRead(t) == if r.write then [] else [rd]
  {
    if r.write {
      WriteStops(r, s);
    } else {
      ReadStops(r, s, rd);
    }
  }

  // ----- every run -----

  /** The data bytes of the reads among the first `n` transactions heard. */
  function AllDataRead(heard: seq<seq<seq<bool>>>, n: nat): seq<seq<bool>>
    requires n <= |heard|
  {
    if n == 0 then [] else AllDataRead(heard, n - 1) + DataRead(heard[n - 1])
  }

  lemma {:induction false} AllDataReadKept(heard: seq<seq<seq<bool>>>, more: seq<seq<seq<bool>>>, n: nat)
    requires n <= |heard|
    ensures AllDataRead(heard + more, n) == AllDataRead(heard, n)
  {
    if n > 0 {
      AllDataReadKept(heard, more, n - 1);
    }
  }

  /** What was heard is what was served, and what was answered is what was heard. */
  ghost predicate Faithful(heard: seq<seq<seq<bool>>>, served: seq<Request>, answers: seq<seq<bool>>) {
    && |heard| <= |served|
    && (forall k :: 0 <= k < |heard| ==> Understood(served[k], heard[k]))
    && answers == AllDataRead(heard, |heard|)
  }

  lemma FaithfulGrows(heard: seq<seq<seq<bool>>>, served: seq<Request>, answers: seq<seq<bool>>,
                      t: seq<seq<bool>>, answers': seq<seq<bool>>)
    requires Faithful(heard, served, answers) && |heard| < |served| && Understood(served[|heard|], t)
    requires answers' == answers + DataRead(t)
    ensures Faithful(heard + [t], served, answers')
  {
    AllDataReadKept(heard, [t], |heard|);
  }

  /** What playing phase `q` of column `c` does to the line and the shift register. */
  ghost predicate Effect(r: Request, c: nat, q: nat, l: Wire, rd: seq<bool>, l': Wire, rd': seq<bool>)
    requires Sized(r)
  {
    match KindOf(r, c)
    case StartColumn => l' == Wire(q < 2, q == 0) && rd' == rd
    case RestartColumn => l' == Wire(true, q < 2) && rd' == rd
    case StopColumn => l' == Wire(q > 0, q == 2) && rd' == rd
    case BitColumn =>
      && l'.scl == (q == 1)
      && (Driven(r, c) ==> l'.sda == BitAt(r, c))
      && (q == 1 && !Driven(r, c) ==> l'.sda == l.sda)
      && (if q == 1 && Sampled(r, c) then |rd| > 0 && rd' == rd[1..] + [l.sda] else rd' == rd)
  }

  lemma PlayEffect(m: Master, slave: bool, c: nat, q: nat)
    requires Ready(m) && m.running && SlaveObeys(m, Tick(slave)) && Plays(m)
    requires PlayedAs(m.request, m.playIndex, c, q)
    ensures Effect(m.request, c, q, Line(m), m.readData, Line(Play(m, slave)), Play(m, slave).readData)
    ensures KindOf(m.request, c) == StopColumn ==> Play(m, slave).outEn
  {
  }

  lemma PlayHasEffect(m: Master, slave: bool, c: nat, q: nat)
    requires Ready(m) && m.running && SlaveObeys(m, Tick(slave)) && Plays(m)
    requires c == PlayedColumn(Played(m)) && q == PhaseIn(Played(m))
    ensures Effect(m.request, c, q, Line(m), m.readData, Line(Play(m, slave)), Play(m, slave).readData)
    ensures KindOf(m.request, c) == StopColumn ==> Play(m, slave).outEn
  {
    PhaseOf(m.request, Played(m));
    PlayEffect(m, slave, c, q);
  }

  lemma PhaseHeard(r: Request, c: nat, q: nat, l: Wire, s: Listener, rd: seq<bool>, l': Wire, rd': seq<bool>)
    requires Sized(r) && c < Columns(r) && q < 3 && |rd| == 8 && Before(r, c, q, l, s, rd)
    requires KindOf(r, c) == StopColumn ==> q < 2
    requires Effect(r, c, q, l, rd, l', rd')
    ensures AfterPhase(r, c, q, l', Hear(s, ChangeOf(l, l')), rd')
    ensures Hear(s, ChangeOf(l, l')).heard == s.heard
  {
    match KindOf(r, c)
    case StartColumn =>
      assert c == 0 && rd' == rd;
      StartPhase(r, q, l, s, rd, l');
    case RestartColumn =>
      assert c == 19 && rd' == rd;
      RestartPhase(r, q, l, s, rd, l');
    case BitColumn => BitPhase(r, c, q, l, s, rd, l', rd');
    case StopColumn =>
      assert c == Columns(r) - 1 && rd' == rd;
      StopPhase(r, q, l, s, rd, l');
  }

  function Played(m: Master): nat
    requires m.playIndex < Length(m.request)
  {
    Length(m.request) - 1 - m.playIndex
  }

  /** The listener is where the phases played so far leave it. */
  ghost predicate Playing(m: Master, s: Listener, l: Wire)
    requires Sized(m.request) && m.playIndex < Length(m.request)
  {
    Before(m.request, PlayedColumn(Played(m)), PhaseIn(Played(m)), l, s, m.readData)
  }

  /** The lines, the listener and the registers of the master. */
  ghost predicate BusInv(m: Master, s: Listener, l: Wire)
    requires Sized(m.request)
  {
    && l == Wire(m.scl, if m.outEn then m.sda else l.sda)
    && if m.running
       then
         && m.playIndex < Length(m.request)
         && (m.playIndex == 0 ==> m.outEn)
         && Playing(m, s, l)
       else m.outEn && l == Wire(true, true) && s == SILENT.(heard := s.heard)
  }

  ghost predicate RecordInv(m: Master, heard: seq<seq<seq<bool>>>) {
    && Faithful(heard, m.served, m.answers)
    && |m.served| == |heard| + (if m.running then 1 else 0)
    && (m.running ==> m.request == m.served[|heard|])
    && |m.fResponse| <= |m.answers|
    && m.fResponse == m.answers[|m.answers| - |m.fResponse|..]
    && m.submitted == m.served + m.fRequest
  }

  /** The master and a listener in state `s` are in step. */
  ghost predicate InStep(m: Master, s: Listener) {
    Ready(m) && BusInv(m, s, Line(m)) && RecordInv(m, s.heard)
  }

  ghost predicate MasterInv(m: Master) {
    Ready(m) && InStep(m, Listen(m.bus, |m.bus|))
  }

  lemma ListenNext(bus: seq<Wire>, w: Wire)
    requires |bus| > 0
    ensures Listen(bus + [w], |bus| + 1) == Hear(Listen(bus, |bus|), ChangeOf(bus[|bus| - 1], w))
  {
    ListenKept(bus, [w], |bus|);
  }

  /** A phase before the last one, by its effect alone. */
  lemma MiddleHeard(r: Request, c: nat, q: nat, l: Wire, s: Listener, rd: seq<bool>, l': Wire, rd': seq<bool>)
    requires Sized(r) && c < Columns(r) && q < 3 && 3 * c + q + 1 < Length(r) && |rd| == 8
    requires Before(r, c, q, l, s, rd) && Effect(r, c, q, l, rd, l', rd')
    ensures var s' := Hear(s, ChangeOf(l, l'));
            && s'.heard == s.heard
            && if q < 2 then Before(r, c, q + 1, l', s', rd') else Before(r, c + 1, 0, l', s', rd')
  {
    assert KindOf(r, c) == StopColumn ==> q < 2;
    PhaseHeard(r, c, q, l, s, rd, l', rd');
    BeforeNext(r, c, q, l', Hear(s, ChangeOf(l, l')), rd');
  }

  lemma NextPlace(tau: nat)
    ensures if PhaseIn(tau) < 2 then PlayedColumn(tau + 1) == PlayedColumn(tau) && PhaseIn(tau + 1) == PhaseIn(tau) + 1
            else PlayedColumn(tau + 1) == PlayedColumn(tau) + 1 && PhaseIn(tau + 1) == 0
  {
  }

  lemma NextPlaying(m: Master, m': Master, s: Listener, l: Wire, c: nat, q: nat)
    requires 0 < m.playIndex < Length(m.request) && c == PlayedColumn(Played(m)) && q == PhaseIn(Played(m))
    requires Sized(m'.request) && m'.request == m.request && m'.playIndex == m.playIndex - 1
    requires if q < 2 then Before(m.request, c, q + 1, l, s, m'.readData)
             else Before(m.request, c + 1, 0, l, s, m'.readData)
    ensures Playing(m', s, l)
    ensures m'.playIndex == 0 ==> KindOf(m.request, c) == StopColumn
    ensures c < Columns(m.request) && q < 3 && 3 * c + q + 1 < Length(m.request)
  {
    assert Played(m') == Played(m) + 1;
    NextPlace(Played(m));
  }

  lemma NotLast(m: Master)
    requires 0 < m.playIndex < Length(m.request)
    ensures var c, q := PlayedColumn(Played(m)), PhaseIn(Played(m));
            c < Columns(m.request) && q < 3 && 3 * c + q + 1 < Length(m.request)
  {
  }

  lemma MiddleKeepsBus(m: Master, slave: bool, s: Listener, l: Wire)
    requires Ready(m) && m.running && m.playIndex > 0 && BusInv(m, s, l) && l == Line(m)
    requires SlaveObeys(m, Tick(slave))
    ensures var m' := Play(m, slave);
            BusInv(m', Hear(s, ChangeOf(l, Line(m'))), Line(m'))
    ensures Hear(s, ChangeOf(l, Line(Play(m, slave)))).heard == s.heard
  {
    var c, q, m' := PlayedColumn(Played(m)), PhaseIn(Played(m)), Play(m, slave);
    NotLast(m);
    PlayHasEffect(m, slave, c, q);
    PlayMiddle(m, slave);
    MiddleHeard(m.request, c, q, l, s, m.readData, Line(m'), m'.readData);
    NextPlaying(m, m', Hear(s, ChangeOf(l, Line(m'))), Line(m'), c, q);
  }

  lemma PlayMiddle(m: Master, slave: bool)
    requires Ready(m) && m.running && m.playIndex > 0
    ensures var m' := Play(m, slave);
            && Ready(m') && m'.running && m'.playIndex == m.playIndex - 1 && m'.request == m.request
            && Line(m') == Wire(m'.scl, if m'.outEn then m'.sda else Line(m').sda)
  {
  }

  lemma LastKeepsBus(m: Master, slave: bool, s: Listener, l: Wire, t: seq<seq<bool>>)
    requires Ready(m) && Plays(m) && m.playIndex == 0 && BusInv(m, s, l) && l == Line(m)
    requires t == s.segments + [s.bits]
    ensures var m' := Play(m, slave);
            && BusInv(m', Hear(s, ChangeOf(l, Line(m'))), Line(m'))
            && Hear(s, ChangeOf(l, Line(m'))).heard == s.heard + [t]
    ensures Understood(m.request, t) && DataRead(t) == if m.request.write then [] else [m.readData]
  {
    var r, tau := m.request, Length(m.request) - 1;
    assert PlayedColumn(tau) == Columns(r) - 1 && PhaseIn(tau) == 2;
    PhaseOf(r, tau);
    LastPhase(r, l, s, m.readData, t);
  }

  lemma PlayKeepsRecord(m: Master, slave: bool, heard: seq<seq<seq<bool>>>, heard': seq<seq<seq<bool>>>)
    requires Ready(m) && Plays(m) && RecordInv(m, heard)
    requires if m.playIndex > 0 then heard' == heard
             else |heard'| == |heard| + 1 && heard' == heard + [heard'[|heard|]]
                  && Understood(m.request, heard'[|heard|])
                  && DataRead(heard'[|heard|]) == if m.request.write then [] else [m.readData]
    ensures RecordInv(Play(m, slave), heard')
  {
    if m.playIndex == 0 {
      FaithfulGrows(heard, m.served, m.answers, heard'[|heard|], Play(m, slave).answers);
    }
  }

  lemma PlayInStep(m: Master, slave: bool, s: Listener)
    requires InStep(m, s) && Plays(m) && SlaveObeys(m, Tick(slave))
    ensures InStep(Play(m, slave), Hear(s, ChangeOf(Line(m), Line(Play(m, slave)))))
  {
    var m', l := Play(m, slave), Line(m);
    var s' := Hear(s, ChangeOf(l, Line(m')));
    if m.playIndex > 0 {
      MiddleKeepsBus(m, slave, s, l);
    } else {
      LastKeepsBus(m, slave, s, l, s.segments + [s.bits]);
    }
    PlayKeepsRecord(m, slave, s.heard, s'.heard);
  }

  lemma IdleInStep(m: Master, slave: bool, s: Listener)
    requires InStep(m, s) && !Plays(m)
    ensures Line(Step(m, Tick(slave))) == Line(m) && InStep(Step(m, Tick(slave)), s)
  {
  }

  lemma StartInStep(m: Master, s: Listener)
    requires InStep(m, s)
    ensures InStep(Step(m, StartRule), s)
  {
    assert RecordInv(Step(m, StartRule), s.heard);
  }

  lemma QueuesKeepRecord(m: Master, m': Master, heard: seq<seq<seq<bool>>>)
    requires RecordInv(m, heard)
    requires m' == m.(fRequest := m'.fRequest, fResponse := m'.fResponse, submitted := m'.submitted)
    requires |m'.fResponse| <= |m.fResponse| && m'.fResponse == m.fResponse[|m.fResponse| - |m'.fResponse|..]
    requires m'.submitted == m.served + m'.fRequest
    ensures RecordInv(m', heard)
  {
    var a, n, n' := m.answers, |m.fResponse|, |m'.fResponse|;
    assert a[|a| - n..][n - n'..] == a[|a| - n'..];
  }

  lemma QueuesKeepBus(m: Master, m': Master, s: Listener, l: Wire)
    requires Sized(m.request) && BusInv(m, s, l)
    requires m' == m.(fRequest := m'.fRequest, fResponse := m'.fResponse, submitted := m'.submitted)
    ensures BusInv(m', s, l)
  {
    assert m'.request == m.request && m'.playIndex == m.playIndex && m'.readData == m.readData;
    assert m.running ==> Playing(m, s, l) && Played(m') == Played(m);
  }

  /** The user's methods touch the two FIFOs only. */
  lemma SubmitInStep(m: Master, q: Request, s: Listener)
    requires InStep(m, s)
    ensures InStep(Step(m, Submit(q)), s)
  {
    var m' := Step(m, Submit(q));
    assert m' == m.(fRequest := m'.fRequest, submitted := m'.submitted);
    assert m'.submitted == m.served + m'.fRequest;
    QueuesKeepBus(m, m', s, Line(m));
    QueuesKeepRecord(m, m', s.heard);
  }

  lemma TakeInStep(m: Master, s: Listener)
    requires InStep(m, s)
    ensures InStep(Step(m, TakeResponse), s)
  {
    var m' := Step(m, TakeResponse);
    assert m' == m.(fResponse := m'.fResponse);
    assert m'.fResponse == m.fResponse[|m.fResponse| - |m'.fResponse|..];
    QueuesKeepBus(m, m', s, Line(m));
    QueuesKeepRecord(m, m', s.heard);
  }

  /** The listener after a step. */
  function Onward(m: Master, e: Event, s: Listener): Listener
    requires Ready(m)
  {
    if e.Tick? then Hear(s, ChangeOf(Line(m), Line(Step(m, e)))) else s
  }

  lemma StaysInStep(m: Master, e: Event, s: Listener)
    requires InStep(m, s) && SlaveObeys(m, e)
    ensures InStep(Step(m, e), Onward(m, e, s))
  {
    match e
    case Tick(slave) =>
      if Plays(m) {
        PlayInStep(m, slave, s);
      } else {
        IdleInStep(m, slave, s);
      }
    case StartRule => StartInStep(m, s);
    case Submit(q) => SubmitInStep(m, q, s);
    case TakeResponse => TakeInStep(m, s);
  }

  lemma LineMoves(m: Master, e: Event)
    requires Ready(m)
    ensures Step(m, e).bus == if e.Tick? then m.bus + [Line(Step(m, e))] else m.bus
  {
  }

  lemma ListensOn(m: Master, e: Event)
    requires Ready(m)
    ensures var m' := Step(m, e);
            Listen(m'.bus, |m'.bus|) == Onward(m, e, Listen(m.bus, |m.bus|))
  {
    LineMoves(m, e);
    ListenNext(m.bus, Line(Step(m, e)));
  }

  lemma StepKeepsInv(m: Master, e: Event)
    requires MasterInv(m) && SlaveObeys(m, e)
    ensures MasterInv(Step(m, e))
  {
    StaysInStep(m, e, Listen(m.bus, |m.bus|));
    ListensOn(m, e);
  }

  /** Every list of events is a run. */
  function Run(m: Master, es: seq<Event>): (r: Master)
    requires Ready(m)
    ensures Ready(r)
    decreases |es|
  {
    if es == [] then m else Run(Step(m, es[0]), es[1..])
  }

  predicate SlaveObeysRun(m: Master, es: seq<Event>)
    requires Ready(m)
    decreases |es|
  {
    es == [] || (SlaveObeys(m, es[0]) && SlaveObeysRun(Step(m, es[0]), es[1..]))
  }

  lemma {:induction false} RunKeepsInv(m: Master, es: seq<Event>)
    requires MasterInv(m) && SlaveObeysRun(m, es)
    ensures MasterInv(Run(m, es))
    decreases |es|
  {
    if es != [] {
      StepKeepsInv(m, es[0]);
      RunKeepsInv(Step(m, es[0]), es[1..]);
    }
  }

  lemma ResetInv(m: Master)
    requires Reset(m)
    ensures MasterInv(m)
  {
    assert RecordInv(m, []);
  }

  lemma RecordSays(m: Master, heard: seq<seq<seq<bool>>>)
    requires RecordInv(m, heard)
    ensures |m.submitted| == |heard| + (if m.running then 1 else 0) + |m.fRequest|
    ensures forall k :: 0 <= k < |heard| ==> Understood(m.submitted[k], heard[k])
    ensures m.answers == AllDataRead(heard, |heard|)
  {
  }

  /** The request the user makes, if there is room for it. */
  function AskedBy(m: Master, e: Event): seq<Request> {
    match e
    case Submit(q) => if Sized(q) && |m.fRequest| < QUEUE_DEPTH then [q] else []
    case _ => []
  }

  function Asked(m: Master, es: seq<Event>): seq<Request>
    requires Ready(m)
    decreases |es|
  {
    if es == [] then [] else AskedBy(m, es[0]) + Asked(Step(m, es[0]), es[1..])
  }

  lemma StepSubmits(m: Master, e: Event)
    requires Ready(m)
    ensures Step(m, e).submitted == m.submitted + AskedBy(m, e)
  {
  }

  lemma {:induction false} SubmittedIsAsked(m: Master, es: seq<Event>)
    requires Ready(m)
    ensures Run(m, es).submitted == m.submitted + Asked(m, es)
    decreases |es|
  {
    if es != [] {
      StepSubmits(m, es[0]);
      SubmittedIsAsked(Step(m, es[0]), es[1..]);
    }
  }

  lemma AllAsked(m: Master, es: seq<Event>)
    requires Ready(m) && m.submitted == []
    ensures Run(m, es).submitted == Asked(m, es)
  {
    SubmittedIsAsked(m, es);
    assert [] + Asked(m, es) == Asked(m, es);
  }

  /** The response the user collects, if there is one. */
  function CollectedBy(m: Master, e: Event): seq<seq<bool>> {
    if e.TakeResponse? && m.fResponse != [] then [m.fResponse[0]] else []
  }

  function Collected(m: Master, es: seq<Event>): seq<seq<bool>>
    requires Ready(m)
    decreases |es|
  {
    if es == [] then [] else CollectedBy(m, es[0]) + Collected(Step(m, es[0]), es[1..])
  }

  lemma PlayAnswers(m: Master, slave: bool, before: seq<seq<bool>>)
    requires Ready(m) && m.running && m.answers == before + m.fResponse
    ensures Play(m, slave).answers == before + Play(m, slave).fResponse
  {
    ThenMore(before, m.fResponse, [m.readData]);
  }

  lemma StepAnswers(m: Master, e: Event, before: seq<seq<bool>>)
    requires Ready(m) && m.answers == before + m.fResponse
    ensures Step(m, e).answers == (before + CollectedBy(m, e)) + Step(m, e).fResponse
  {
    assert before + [] == before;
    if e.Tick? && Plays(m) {
      PlayAnswers(m, e.slave, before);
    } else if e.TakeResponse? && m.fResponse != [] {
      ThenMore(before, [m.fResponse[0]], m.fResponse[1..]);
    }
  }

  lemma ThenMore(a: seq<seq<bool>>, b: seq<seq<bool>>, c: seq<seq<bool>>)
    ensures (a + b) + c == a + (b + c)
  {
  }

  lemma {:induction false} AnsweredIsCollected(m: Master, es: seq<Event>, before: seq<seq<bool>>)
    requires Ready(m) && m.answers == before + m.fResponse
    ensures Run(m, es).answers == (before + Collected(m, es)) + Run(m, es).fResponse
    decreases |es|
  {
    if es != [] {
      StepAnswers(m, es[0], before);
      AnsweredIsCollected(Step(m, es[0]), es[1..], before + CollectedBy(m, es[0]));
      ThenMore(before, CollectedBy(m, es[0]), Collected(Step(m, es[0]), es[1..]));
    } else {
      assert before + [] == before;
    }
  }

  lemma AllCollected(m: Master, es: seq<Event>)
    requires Ready(m) && m.answers == [] == m.fResponse
    ensures Run(m, es).answers == Collected(m, es) + Run(m, es).fResponse
  {
    AnsweredIsCollected(m, es, []);
    assert [] + Collected(m, es) == Collected(m, es);
  }

  lemma Reached(m: Master, es: seq<Event>)
    requires Reset(m) && SlaveObeysRun(m, es)
    ensures MasterInv(Run(m, es)) && Run(m, es).submitted == Asked(m, es)
  {
    ResetInv(m);
    RunKeepsInv(m, es);
    AllAsked(m, es);
  }

  /** Whatever the shift register and the request registers held at reset, and however requests, ticks and
      responses interleave: the transactions a listener hears are exactly the requests asked for so far, in
      order, but for one under way and those still queued, and the data bytes heard in the reads are, in order,
      exactly the responses the user has collected and those waiting in the response FIFO. */
  lemma RequestsHeardAsAsked(m: Master, es: seq<Event>)
    requires Reset(m) && SlaveObeysRun(m, es)
    ensures var r, asked := Run(m, es), Asked(m, es);
            var heard := Listen(r.bus, |r.bus|).heard;
            && |asked| == |heard| + (if r.running then 1 else 0) + |r.fRequest|
            && (forall k :: 0 <= k < |heard| ==> Understood(asked[k], heard[k]))
            && AllDataRead(heard, |heard|) == Collected(m, es) + r.fResponse
  {
    Reached(m, es);
    AllCollected(m, es);
    RecordSays(Run(m, es), Listen(Run(m, es).bus, |Run(m, es).bus|).heard);
  }

  lemma StepFits(m: Master, e: Event)
    requires Ready(m) && |m.fRequest| <= 16 && |m.fResponse| <= 16
    ensures |Step(m, e).fRequest| <= 16 && |Step(m, e).fResponse| <= 16
  {
  }

  /** Neither FIFO ever holds more than its 16 elements: a read whose response has nowhere to go waits. */
  lemma {:induction false} QueuesFit(m: Master, es: seq<Event>)
    requires Ready(m) && |m.fRequest| <= 16 && |m.fResponse| <= 16
    ensures |Run(m, es).fRequest| <= 16 && |Run(m, es).fResponse| <= 16
    decreases |es|
  {
    if es != [] {
      StepFits(m, es[0]);
      QueuesFit(Step(m, es[0]), es[1..]);
    }
  }

  lemma ReachedPlaying(m: Master, es: seq<Event>)
    requires Reset(m) && SlaveObeysRun(m, es) && Run(m, es).running
    ensures var r := Run(m, es);
            Playing(r, Listen(r.bus, |r.bus|), Line(r))
  {
    Reached(m, es);
  }

  /** In every run, a tick through which SCL stays high moves SDA in a START, repeated START or STOP
      column only. */
  lemma DataStableWhileHigh(m: Master, es: seq<Event>, slave: bool)
    requires Reset(m) && SlaveObeysRun(m, es)
    requires var r := Run(m, es);
             && Plays(r) && SlaveObeys(r, Tick(slave))
             && Line(r).scl && Line(Play(r, slave)).scl && Line(r).sda != Line(Play(r, slave)).sda
    ensures var r := Run(m, es);
            KindOf(r.request, PlayedColumn(Played(r))) != BitColumn
  {
    ReachedPlaying(m, es);
    var r := Run(m, es);
    var c, q := PlayedColumn(Played(r)), PhaseIn(Played(r));
    var l', rd' := PlayedLine(r, slave, c, q);
    HighBitMoves(r.request, c, q, Line(r), Listen(r.bus, |r.bus|), r.readData, l', rd');
  }

  lemma PlayedLine(m: Master, slave: bool, c: nat, q: nat) returns (l': Wire, rd': seq<bool>)
    requires Ready(m) && Plays(m) && SlaveObeys(m, Tick(slave))
    requires c == PlayedColumn(Played(m)) && q == PhaseIn(Played(m))
    ensures l' == Line(Play(m, slave)) && Effect(m.request, c, q, Line(m), m.readData, l', rd')
  {
    PlayHasEffect(m, slave, c, q);
    l', rd' := Line(Play(m, slave)), Play(m, slave).readData;
  }

  lemma HighBitMoves(r: Request, c: nat, q: nat, l: Wire, s: Listener, rd: seq<bool>, l': Wire, rd': seq<bool>)
    requires Sized(r) && Before(r, c, q, l, s, rd) && q < 3
    requires Effect(r, c, q, l, rd, l', rd') && l.scl && l'.scl
    ensures KindOf(r, c) != BitColumn
  {
  }
}
