/**
 A listener on an I2C bus, after the I2C-bus specification and user manual
 UM10204: bits are read while SCL is high (3.1.3), a falling or rising SDA
 while SCL stays high is a START or a STOP (3.1.4), bytes go most significant
 bit first with an acknowledge bit each (3.1.5, 3.1.6), and an address byte is
 seven address bits and a read bit (3.1.10).
 */
module I2CBus {

  datatype Wire = Wire(scl: bool, sda: bool)

  datatype Option<T> = None | Some(value: T)

  /** What happened between two successive levels of the bus. */
  datatype Change = Quiet | Rise(bit: bool) | Fall | Start | Stop

  function ChangeOf(before: Wire, after: Wire): Change {
    if before.scl && after.scl then
      if before.sda && !after.sda then Start
      else if !before.sda && after.sda then Stop
      else Quiet
    else if after.scl then Rise(after.sda)
    else if before.scl then Fall
    else Quiet
  }

  /** Between a START and its STOP: the segments closed by a repeated START, the bits of the open one,
      and the bit read at the last rise of SCL, which counts once SCL falls. */
  datatype Listener = Listener(active: bool, segments: seq<seq<bool>>, bits: seq<bool>, latch: Option<bool>,
                               heard: seq<seq<seq<bool>>>)

  const SILENT := Listener(false, [], [], None, [])

  function Hear(m: Listener, c: Change): Listener {
    match c
    case Quiet => m
    case Rise(b) => m.(latch := Some(b))
    case Fall =>
      if m.active && m.latch.Some? then m.(bits := m.bits + [m.latch.value], latch := None)
      else m.(latch := None)
    case Start =>
      Listener(true, if m.active then m.segments + [m.bits] else [], [], None, m.heard)
    case Stop =>
      Listener(false, [], [], None, if m.active then m.heard + [m.segments + [m.bits]] else m.heard)
  }

  /** The listener after the first `n` levels of the bus. */
  function Listen(bus: seq<Wire>, n: nat): Listener
    requires 0 < n <= |bus|
  {
    if n == 1 then SILENT else Hear(Listen(bus, n - 1), ChangeOf(bus[n - 2], bus[n - 1]))
  }

  lemma {:induction false} ListenKept(bus: seq<Wire>, more: seq<Wire>, n: nat)
    requires 0 < n <= |bus|
    ensures Listen(bus + more, n) == Listen(bus, n)
  {
    if n > 1 {
      ListenKept(bus, more, n - 1);
    }
  }

  /** A register access as a device on the bus understands it. */
  datatype Message =
    | WriteMessage(slave: seq<bool>, address: seq<bool>, data: seq<bool>)
    | ReadMessage(slave: seq<bool>, address: seq<bool>, data: seq<bool>)

  /** Slave and write bit, register, data, each acknowledged; or slave and write bit, register, and after
      a repeated START slave and read bit, data. */
  function Decode(t: seq<seq<bool>>): Option<Message> {
    if |t| == 1 && |t[0]| == 27 && !t[0][7] then
      Some(WriteMessage(t[0][..7], t[0][9..17], t[0][18..26]))
    else if |t| == 2 && |t[0]| == 18 && |t[1]| == 18 && !t[0][7] && t[1][7] && t[0][..7] == t[1][..7] then
      Some(ReadMessage(t[0][..7], t[0][9..17], t[1][9..17]))
    else None
  }
}
