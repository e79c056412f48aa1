/**
 The I2C master of flashemul/I2CSimple.bsv: each bit is played as three phases
 of SCL, SDA and output enable, taken from tables built from the request.
 A step is a prescaler tick, the start rule, or a user method.
 */
module I2CMaster {
  import opened I2CBus

  datatype Request = Request(write: bool, slaveaddr: seq<bool>, address: seq<bool>, data: seq<bool>)

  /** Addresses and data are bits, most significant first. */
  predicate Sized(r: Request) {
    |r.slaveaddr| == 7 && |r.address| == 8 && |r.data| == 8
  }

  const QUEUE_DEPTH := 16

  /** Three successive phases of one line. */
  datatype Trit = Trit(first: bool, second: bool, third: bool)

  function Flat(b: bool): Trit {
    Trit(b, b, b)
  }

  const BIT_CLOCK := Trit(false, true, false)

  // The rows of the write table, column by column.

  const WRITE_COLUMNS := 29

  function WriteClock(g: nat): Trit {
    if g == 0 then Trit(true, true, false) else if g == 28 then Trit(false, true, true) else BIT_CLOCK
  }

  function WriteData(r: Request, g: nat): Trit
    requires Sized(r)
  {
    if g == 0 then Trit(true, false, false)
    else if g <= 7 then Flat(r.slaveaddr[g - 1])
    else if 10 <= g <= 17 then Flat(r.address[g - 10])
    else if 19 <= g <= 26 then Flat(r.data[g - 19])
    else if g == 28 then Trit(false, false, true)
    else Flat(false)
  }

  function WriteOutEn(g: nat): Trit {
    Flat(g != 9 && g != 18 && g != 27)
  }

  // The rows of the read table.

  const READ_COLUMNS := 39

  function ReadClock(g: nat): Trit {
    if g == 0 then Trit(true, true, false)
    else if g == 19 then Trit(true, true, true)
    else if g == 38 then Trit(false, true, true)
    else BIT_CLOCK
  }

  function ReadData(r: Request, g: nat): Trit
    requires Sized(r)
  {
    if g == 0 then Trit(true, false, false)
    else if g <= 7 then Flat(r.slaveaddr[g - 1])
    else if 10 <= g <= 17 then Flat(r.address[g - 10])
    else if g == 19 then Trit(true, true, false)
    else if 20 <= g <= 26 then Flat(r.slaveaddr[g - 20])
    else if g == 27 then Flat(true)
    else if g == 38 then Trit(false, false, true)
    else Flat(false)
  }

  function ReadOutEn(g: nat): Trit {
    Flat(g != 9 && g != 18 && !(28 <= g <= 37))
  }

  function ReadSample(g: nat): Trit {
    if 29 <= g <= 36 then BIT_CLOCK else Flat(false)
  }

  function Length(r: Request): nat {
    3 * if r.write then WRITE_COLUMNS else READ_COLUMNS
  }

  /** Bit `i` of a packed table: index 0 is the last phase of the last column. */
  function Phase(row: Trit, i: nat): bool {
    if i % 3 == 2 then row.first else if i % 3 == 1 then row.second else row.third
  }

  function ColumnOf(r: Request, i: nat): nat
    requires i < Length(r)
  {
    (Length(r) - 1 - i) / 3
  }

  function Clock(r: Request, i: nat): bool
    requires Sized(r) && i < Length(r)
  {
    var g := ColumnOf(r, i);
    Phase(if r.write then WriteClock(g) else ReadClock(g), i)
  }

  function Data(r: Request, i: nat): bool
    requires Sized(r) && i < Length(r)
  {
    var g := ColumnOf(r, i);
    Phase(if r.write then WriteData(r, g) else ReadData(r, g), i)
  }

  function OutEn(r: Request, i: nat): bool
    requires Sized(r) && i < Length(r)
  {
    var g := ColumnOf(r, i);
    Phase(if r.write then WriteOutEn(g) else ReadOutEn(g), i)
  }

  function Sample(r: Request, i: nat): bool
    requires Sized(r) && i < Length(r)
  {
    !r.write && Phase(ReadSample(ColumnOf(r, i)), i)
  }

  /** The registers, then the record: `bus` is the level of the lines after every tick, `submitted` the
      requests accepted from the user, `served` those started, `answers` the bytes ever put in the response FIFO.
      `readData` is the shift register, its highest index first. */
  datatype Master = Master(
    fRequest: seq<Request>, fResponse: seq<seq<bool>>,
    scl: bool, sda: bool, outEn: bool, playIndex: nat, running: bool,
    request: Request, readData: seq<bool>,
    bus: seq<Wire>, submitted: seq<Request>, served: seq<Request>, answers: seq<seq<bool>>)

  datatype Event =
    | Submit(request: Request)
    | TakeResponse
    | StartRule
    | Tick(slave: bool)

  predicate Ready(m: Master) {
    && Sized(m.request) && |m.readData| == 8
    && |m.bus| > 0
    && (forall k :: 0 <= k < |m.fRequest| ==> Sized(m.fRequest[k]))
    && (m.running ==> m.playIndex < Length(m.request))
  }

  /** The registers the reset does not set may hold anything. */
  predicate Reset(m: Master) {
    && Sized(m.request) && |m.readData| == 8
    && m == Master([], [], true, true, true, 0, false, m.request, m.readData, [Wire(true, true)], [], [], [])
  }

  function Line(m: Master): Wire
    requires Ready(m)
  {
    m.bus[|m.bus| - 1]
  }

  /** A tick plays a phase, unless nothing runs or the response of a finished read has nowhere to go. */
  predicate Plays(m: Master) {
    m.running && !(!m.request.write && m.playIndex == 0 && |m.fResponse| >= QUEUE_DEPTH)
  }

  /** The rules running_write, running_read, done_write and done_read. */
  function Play(m: Master, slave: bool): Master
    requires Ready(m) && m.running
  {
    var i, r := m.playIndex, m.request;
    var scl, sda, en := Clock(r, i), Data(r, i), OutEn(r, i);
    var finished := i == 0 && !r.write;
    m.(scl := scl, sda := sda, outEn := en,
       bus := m.bus + [Wire(scl, if en then sda else slave)],
       readData := if Sample(r, i) then m.readData[1..] + [Line(m).sda] else m.readData,
       playIndex := if i > 0 then i - 1 else if r.write then 1023 else 0,
       running := i > 0,
       fResponse := if finished then m.fResponse + [m.readData] else m.fResponse,
       answers := if finished then m.answers + [m.readData] else m.answers)
  }

  /** UM10204, 3.1.3: a device that drives SDA does not change it while SCL is high.  With the lines
      sampled at the end of each tick, what the slave shows as SCL goes high it already showed before. */
  predicate SlaveObeys(m: Master, e: Event)
    requires Ready(m)
  {
    e.Tick? && Plays(m) && !OutEn(m.request, m.playIndex) && Clock(m.request, m.playIndex) ==>
      e.slave == Line(m).sda
  }

  function Step(m: Master, e: Event): (r: Master)
    requires Ready(m)
    ensures Ready(r)
  {
    match e
    case Submit(q) =>
      if Sized(q) && |m.fRequest| < QUEUE_DEPTH
      then m.(fRequest := m.fRequest + [q], submitted := m.submitted + [q]) else m
    case TakeResponse =>
      if m.fResponse != [] then m.(fResponse := m.fResponse[1..]) else m
    case StartRule =>
      if m.running || m.fRequest == [] then m
      else m.(fRequest := m.fRequest[1..], request := m.fRequest[0], running := true,
              playIndex := Length(m.fRequest[0]) - 1, served := m.served + [m.fRequest[0]])
    case Tick(slave) =>
      if Plays(m) then Play(m, slave)
      else m.(bus := m.bus + [Wire(m.scl, if m.outEn then m.sda else slave)])
  }
}
