/**
 The Aurora link emulation of xilinx/aurora_64b66b/bdpi.cpp: a chain of nodes,
 each a process of its own, joined by named pipes with a one-word mailbox at
 every receiving port.  A pipe moves whole 8-byte words.
 */
module AuroraLinks {

  const PORTS := 4
  const LAST_NODE := 20
  const BAD_READ: bv64 := 0xcccccccc

  /** The pipe of a name: which node and port of the lower end, and which way it carries. */
  datatype PipeName = PipeName(node: nat, off: nat, up: bool)

  /** What is in a pipe, and whether its reading end has been opened. */
  datatype Pipe = Pipe(content: seq<bv64>, readerOpen: bool)

  /** The globals of a process that belong to one of its ports, then the words its callers have had
      accepted for sending and have been given. */
  datatype Port = Port(rdExists: bool, wrExists: bool, readRecv: bool, lastRead: bv64,
                       sent: seq<bv64>, got: seq<bv64>)

  /** Every node's ports, and the pipes of the machine. */
  datatype Chain = Chain(ports: map<(nat, nat), Port>, pipes: map<PipeName, Pipe>)

  /** Ports 0 and 1 go up to the next node, 2 and 3 come up from the one before; the first node has
      nothing below it. */
  predicate Linked(n: nat, p: nat) {
    p < 2 || (p < PORTS && n > 0)
  }

  /** Port 0 of a node connects to port 3 of the next one, port 1 to port 2. */
  function Peer(n: nat, p: nat): (nat, nat)
    requires Linked(n, p)
  {
    if p < 2 then (n + 1, 3 - p) else (n - 1, 3 - p)
  }

  function Off(p: nat): nat {
    if p == 2 then 1 else if p == 3 then 0 else p
  }

  function ReadName(n: nat, p: nat): PipeName
    requires Linked(n, p)
  {
    if p < 2 then PipeName(n, Off(p), false) else PipeName(n - 1, Off(p), true)
  }

  function WriteName(n: nat, p: nat): PipeName
    requires Linked(n, p)
  {
    if p < 2 then PipeName(n, Off(p), true) else PipeName(n - 1, Off(p), false)
  }

  /** The naming pairs the ports: what a port writes is what its peer, and nobody else, reads. */
  lemma NamesPair(n: nat, p: nat, m: nat, q: nat)
    requires Linked(n, p) && Linked(m, q)
    ensures Linked(Peer(n, p).0, Peer(n, p).1) && Peer(Peer(n, p).0, Peer(n, p).1) == (n, p)
    ensures WriteName(n, p) == ReadName(m, q) <==> (m, q) == Peer(n, p)
    ensures WriteName(n, p) == WriteName(m, q) <==> (m, q) == (n, p)
    ensures ReadName(n, p) == ReadName(m, q) <==> (m, q) == (n, p)
  {
  }

  /** The arrays start zeroed but for the first mailbox flag. */
  function PortAt(c: Chain, n: nat, p: nat): Port {
    if (n, p) in c.ports then c.ports[(n, p)] else Port(false, false, p == 0, 0, [], [])
  }

  function PipeAt(c: Chain, name: PipeName): Pipe {
    if name in c.pipes then c.pipes[name] else Pipe([], false)
  }

  function SetPort(c: Chain, n: nat, p: nat, x: Port): Chain {
    c.(ports := c.ports[(n, p) := x])
  }

  /** getPipes: the reading end can always be opened and comes up with an empty mailbox; the writing end
      only once the other side reads. */
  function GetPipes(c: Chain, n: nat, p: nat): Chain
    requires Linked(n, p)
  {
    if n > LAST_NODE then c else
    var x, rd := PortAt(c, n, p), ReadName(n, p);
    var c1 := if x.rdExists then c
              else c.(pipes := c.pipes[rd := PipeAt(c, rd).(readerOpen := true)]);
    SetPort(c1, n, p, x.(rdExists := true, readRecv := x.readRecv || !x.rdExists,
                         wrExists := x.wrExists || PipeAt(c1, WriteName(n, p)).readerOpen))
  }

  /** bdpiRecvAvailable, with the pipes open. */
  function Fetch(c: Chain, n: nat, p: nat): (Chain, bool)
    requires Linked(n, p)
  {
    var x, rd := PortAt(c, n, p), ReadName(n, p);
    var pipe := PipeAt(c, rd);
    if n > LAST_NODE then (c, false)
    else if !x.readRecv then (c, true)
    else if pipe.content == [] then (c, false)
    else
      (SetPort(c.(pipes := c.pipes[rd := pipe.(content := pipe.content[1..])]), n, p,
               x.(lastRead := pipe.content[0], readRecv := false)), true)
  }

  /** bdpiRead, with the pipes open. */
  function Give(c: Chain, n: nat, p: nat): (Chain, bv64)
    requires Linked(n, p)
  {
    var x := PortAt(c, n, p);
    if n > LAST_NODE then (SetPort(c, n, p, x.(got := x.got + [BAD_READ])), BAD_READ)
    else (SetPort(c, n, p, x.(readRecv := true, got := x.got + [x.lastRead])), x.lastRead)
  }

  /** bdpiWrite, with the pipes open: `room` is whether the pipe can take another word. */
  function Put(c: Chain, n: nat, p: nat, data: bv64, room: bool): (Chain, bool)
    requires Linked(n, p)
  {
    var x, wr := PortAt(c, n, p), WriteName(n, p);
    var pipe := PipeAt(c, wr);
    if n > LAST_NODE || !x.wrExists || !room then (c, false)
    else
      (SetPort(c.(pipes := c.pipes[wr := pipe.(content := pipe.content + [data])]), n, p,
               x.(sent := x.sent + [data])), true)
  }

  function RecvAvailable(c: Chain, n: nat, p: nat): (Chain, bool)
    requires Linked(n, p)
  {
    Fetch(GetPipes(c, n, p), n, p)
  }

  function Read(c: Chain, n: nat, p: nat): (Chain, bv64)
    requires Linked(n, p)
  {
    Give(GetPipes(c, n, p), n, p)
  }

  function Write(c: Chain, n: nat, p: nat, data: bv64, room: bool): (Chain, bool)
    requires Linked(n, p)
  {
    Put(GetPipes(c, n, p), n, p, data, room)
  }

  // ----- every word arrives once, in order -----

  /** A word has been taken from the pipe and not yet been given to a caller. */
  predicate Held(x: Port) {
    x.rdExists && !x.readRecv
  }

  function Mailbox(x: Port): seq<bv64> {
    if Held(x) then [x.lastRead] else []
  }

  /** What a port has sent is what its peer has been given, then what is in the peer's mailbox, then
      what is in the pipe. */
  ghost predicate LinkInv(c: Chain, n: nat, p: nat)
    requires Linked(n, p)
  {
    var x, y, pipe := PortAt(c, n, p), PortAt(c, Peer(n, p).0, Peer(n, p).1), PipeAt(c, WriteName(n, p));
    && x.sent == y.got + Mailbox(y) + pipe.content
    && (y.rdExists ==> pipe.readerOpen)
    && (x.sent != [] ==> n <= LAST_NODE && Peer(n, p).0 <= LAST_NODE)
    && (pipe.readerOpen || x.wrExists ==> y.rdExists && Peer(n, p).0 <= LAST_NODE)
  }

  ghost predicate ChainInv(c: Chain) {
    forall n: nat, p: nat {:trigger LinkInv(c, n, p)} | Linked(n, p) :: LinkInv(c, n, p)
  }

  datatype Call =
    | CallRecvAvailable(n: nat, p: nat)
    | CallRead(n: nat, p: nat)
    | CallWrite(n: nat, p: nat, data: bv64, room: bool)

  /** Calls are on linked ports; a read comes only after a word has been announced and not yet read. */
  predicate Proper(c: Chain, k: Call) {
    Linked(k.n, k.p) && (k.CallRead? ==> k.n <= LAST_NODE && Held(PortAt(c, k.n, k.p)))
  }

  function Step(c: Chain, k: Call): Chain {
    if !Proper(c, k) then c else
    match k
    case CallRecvAvailable(n, p) => RecvAvailable(c, n, p).0
    case CallRead(n, p) => Read(c, n, p).0
    case CallWrite(n, p, d, room) => Write(c, n, p, d, room).0
  }

  /** Opening the pipes of a port changes no pipe's content, no port's words, and no other port at all. */
  lemma GetPipesOpens(c: Chain, n: nat, p: nat, m: nat, q: nat)
    requires Linked(n, p) && Linked(m, q)
    ensures var c', x := GetPipes(c, n, p), PortAt(c, m, q);
            && PipeAt(c', ReadName(m, q)).content == PipeAt(c, ReadName(m, q)).content
            && (if (m, q) != (n, p) || n > LAST_NODE
                then PortAt(c', m, q) == x && PipeAt(c', ReadName(m, q)) == PipeAt(c, ReadName(m, q))
                else
                  && PortAt(c', m, q) == x.(rdExists := true, readRecv := x.readRecv || !x.rdExists,
                                            wrExists := PortAt(c', m, q).wrExists)
                  && (PipeAt(c', ReadName(m, q)).readerOpen <==> PipeAt(c, ReadName(m, q)).readerOpen || !x.rdExists))
    ensures var c' := GetPipes(c, n, p);
            (m, q) == (n, p) && n <= LAST_NODE && PortAt(c', n, p).wrExists ==>
              PortAt(c, n, p).wrExists || PipeAt(c', WriteName(n, p)).readerOpen
  {
    NamesPair(m, q, n, p);
  }

  lemma GetPipesKeepsLink(c: Chain, n: nat, p: nat, m: nat, q: nat)
    requires Linked(n, p) && Linked(m, q) && LinkInv(c, m, q)
    ensures LinkInv(GetPipes(c, n, p), m, q)
  {
    NamesPair(m, q, n, p);
    var (m', q') := Peer(m, q);
    GetPipesOpens(c, n, p, m, q);
    GetPipesOpens(c, n, p, m', q');
    assert WriteName(m, q) == ReadName(m', q');
  }

  lemma FetchKeepsLink(c: Chain, n: nat, p: nat, m: nat, q: nat)
    requires Linked(n, p) && Linked(m, q) && LinkInv(c, m, q)
    requires n <= LAST_NODE ==> PortAt(c, n, p).rdExists
    ensures LinkInv(Fetch(c, n, p).0, m, q)
  {
    NamesPair(m, q, n, p);
  }

  lemma GiveKeepsLink(c: Chain, n: nat, p: nat, m: nat, q: nat)
    requires Linked(n, p) && Linked(m, q) && LinkInv(c, m, q)
    requires n <= LAST_NODE && Held(PortAt(c, n, p))
    ensures LinkInv(Give(c, n, p).0, m, q)
  {
    NamesPair(m, q, n, p);
  }

  /** The callers' rule is exactly what is needed: a read keeps the link's account if and only if a word
      had been announced and not yet read. */
  lemma ReadKeepsLinkIffHeld(c: Chain, n: nat, p: nat)
    requires Linked(n, p) && n <= LAST_NODE && Linked(Peer(n, p).0, Peer(n, p).1)
    requires LinkInv(c, Peer(n, p).0, Peer(n, p).1)
    ensures LinkInv(Give(c, n, p).0, Peer(n, p).0, Peer(n, p).1) <==> Held(PortAt(c, n, p))
  {
    var (m, q) := Peer(n, p);
    NamesPair(m, q, n, p);
    if Held(PortAt(c, n, p)) {
      GiveKeepsLink(c, n, p, m, q);
    } else {
      var c' := Give(c, n, p).0;
      assert |PortAt(c', n, p).got| == |PortAt(c, n, p).got| + 1;
      assert PortAt(c', m, q).sent == PortAt(c, m, q).sent;
    }
  }

  lemma PutKeepsLink(c: Chain, n: nat, p: nat, data: bv64, room: bool, m: nat, q: nat)
    requires Linked(n, p) && Linked(m, q) && LinkInv(c, m, q)
    ensures LinkInv(Put(c, n, p, data, room).0, m, q)
  {
    NamesPair(m, q, n, p);
  }

  lemma StepKeepsInv(c: Chain, k: Call)
    requires ChainInv(c)
    ensures ChainInv(Step(c, k))
  {
    if Proper(c, k) {
      var c1 := GetPipes(c, k.n, k.p);
      GetPipesOpens(c, k.n, k.p, k.n, k.p);
      forall m: nat, q: nat | Linked(m, q)
        ensures LinkInv(Step(c, k), m, q)
      {
        assert LinkInv(c, m, q);
        GetPipesKeepsLink(c, k.n, k.p, m, q);
        match k
        case CallRecvAvailable(n, p) => FetchKeepsLink(c1, n, p, m, q);
        case CallRead(n, p) => GiveKeepsLink(c1, n, p, m, q);
        case CallWrite(n, p, data, room) => PutKeepsLink(c1, n, p, data, room, m, q);
      }
    }
  }

  /** Every list of calls, from any nodes in any order, is a run. */
  function Run(c: Chain, ks: seq<Call>): Chain
    decreases |ks|
  {
    if ks == [] then c else Run(Step(c, ks[0]), ks[1..])
  }

  lemma {:induction false} RunKeepsInv(c: Chain, ks: seq<Call>)
    requires ChainInv(c)
    ensures ChainInv(Run(c, ks))
    decreases |ks|
  {
    if ks != [] {
      StepKeepsInv(c, ks[0]);
      RunKeepsInv(Step(c, ks[0]), ks[1..]);
    }
  }

  const POWER_ON := Chain(map[], map[])

  lemma PowerOnInv()
    ensures ChainInv(POWER_ON)
  {
    forall n: nat, p: nat | Linked(n, p)
      ensures LinkInv(POWER_ON, n, p)
    {
    }
  }

  /** The words bdpiWrite has been called with for a port and has taken, in order. */
  function Taken(c: Chain, ks: seq<Call>, n: nat, p: nat): seq<bv64>
    decreases |ks|
  {
    if ks == [] then [] else
    var k := ks[0];
    (if k.CallWrite? && (k.n, k.p) == (n, p) && Linked(n, p) && Write(c, n, p, k.data, k.room).1 then [k.data] else [])
    + Taken(Step(c, k), ks[1..], n, p)
  }

  /** The words bdpiRead has returned for a port, in order. */
  function Returned(c: Chain, ks: seq<Call>, n: nat, p: nat): seq<bv64>
    decreases |ks|
  {
    if ks == [] then [] else
    var k := ks[0];
    (if k.CallRead? && (k.n, k.p) == (n, p) && Proper(c, k) then [Read(c, n, p).1] else [])
    + Returned(Step(c, k), ks[1..], n, p)
  }

  lemma StepTakes(c: Chain, k: Call, n: nat, p: nat)
    requires Linked(n, p)
    ensures PortAt(Step(c, k), n, p).sent == PortAt(c, n, p).sent +
              if k.CallWrite? && (k.n, k.p) == (n, p) && Write(c, n, p, k.data, k.room).1 then [k.data] else []
    ensures PortAt(Step(c, k), n, p).got == PortAt(c, n, p).got +
              if k.CallRead? && (k.n, k.p) == (n, p) && Proper(c, k) then [Read(c, n, p).1] else []
  {
    if Proper(c, k) {
      var c1 := GetPipes(c, k.n, k.p);
      GetPipesOpens(c, k.n, k.p, n, p);
      assert PortAt(c1, n, p).sent == PortAt(c, n, p).sent && PortAt(c1, n, p).got == PortAt(c, n, p).got;
      match k
      case CallRecvAvailable(m, q) => FetchTakes(c1, m, q, n, p);
      case CallRead(m, q) => GiveTakes(c1, m, q, n, p);
      case CallWrite(m, q, data, room) => PutTakes(c1, m, q, data, room, n, p);
    }
  }

  lemma FetchTakes(c: Chain, m: nat, q: nat, n: nat, p: nat)
    requires Linked(m, q)
    ensures var x, y := PortAt(c, n, p), PortAt(Fetch(c, m, q).0, n, p);
            y.sent == x.sent && y.got == x.got
  {
  }

  lemma GiveTakes(c: Chain, m: nat, q: nat, n: nat, p: nat)
    requires Linked(m, q)
    ensures var x, y := PortAt(c, n, p), PortAt(Give(c, m, q).0, n, p);
            && y.sent == x.sent
            && y.got == if m == n && p == q then x.got + [Give(c, m, q).1] else x.got
  {
    if (m, q) != (n, p) {
      PortSet(c, m, q, PortAt(Give(c, m, q).0, m, q), n, p);
    }
  }

  lemma PortSet(c: Chain, m: nat, q: nat, x: Port, n: nat, p: nat)
    ensures PortAt(SetPort(c, m, q, x), n, p) == if (m, q) == (n, p) then x else PortAt(c, n, p)
  {
  }

  lemma PutTakes(c: Chain, m: nat, q: nat, data: bv64, room: bool, n: nat, p: nat)
    requires Linked(m, q)
    ensures var x, y, taken := PortAt(c, n, p), PortAt(Put(c, m, q, data, room).0, n, p), Put(c, m, q, data, room).1;
            && y.sent == (if taken && m == n && p == q then x.sent + [data] else x.sent)
            && y.got == x.got
  {
  }

  lemma ThenMore(a: seq<bv64>, b: seq<bv64>, c: seq<bv64>)
    ensures (a + b) + c == a + (b + c)
  {
  }

  lemma {:induction false} RunTakes(c: Chain, ks: seq<Call>, n: nat, p: nat)
    requires Linked(n, p)
    ensures PortAt(Run(c, ks), n, p).sent == PortAt(c, n, p).sent + Taken(c, ks, n, p)
    ensures PortAt(Run(c, ks), n, p).got == PortAt(c, n, p).got + Returned(c, ks, n, p)
    decreases |ks|
  {
    if ks != [] {
      var k, x := ks[0], PortAt(c, n, p);
      StepTakes(c, k, n, p);
      RunTakes(Step(c, k), ks[1..], n, p);
      ThenMore(x.sent,
               if k.CallWrite? && (k.n, k.p) == (n, p) && Write(c, n, p, k.data, k.room).1 then [k.data] else [],
               Taken(Step(c, k), ks[1..], n, p));
      ThenMore(x.got, if k.CallRead? && (k.n, k.p) == (n, p) && Proper(c, k) then [Read(c, n, p).1] else [],
               Returned(Step(c, k), ks[1..], n, p));
    }
  }

  lemma WordsFrom(c: Chain, ks: seq<Call>, n: nat, p: nat)
    requires ChainInv(c) && Linked(n, p)
    requires PortAt(c, n, p).sent == [] == PortAt(c, Peer(n, p).0, Peer(n, p).1).got
    ensures var r := Run(c, ks);
            var (m, q) := Peer(n, p);
            Taken(c, ks, n, p) ==
            Returned(c, ks, m, q) + Mailbox(PortAt(r, m, q)) + PipeAt(r, WriteName(n, p)).content
  {
    var (m, q) := Peer(n, p);
    var r := Run(c, ks);
    RunKeepsInv(c, ks);
    NamesPair(n, p, n, p);
    RunTakes(c, ks, n, p);
    RunTakes(c, ks, m, q);
    assert LinkInv(r, n, p);
    assert PortAt(r, n, p).sent == Taken(c, ks, n, p);
    assert PortAt(r, m, q).got == Returned(c, ks, m, q);
  }

  /** In every run, the words a port has returned to its callers are a prefix of those taken from the callers of
      its peer, and what is missing is in the mailbox or the pipe: nothing is lost, repeated, reordered or
      altered. */
  lemma WordsArriveInOrder(ks: seq<Call>, n: nat, p: nat)
    requires Linked(n, p)
    ensures var c := Run(POWER_ON, ks);
            var (m, q) := Peer(n, p);
            var taken, returned := Taken(POWER_ON, ks, n, p), Returned(POWER_ON, ks, m, q);
            && taken == returned + Mailbox(PortAt(c, m, q)) + PipeAt(c, WriteName(n, p)).content
            && returned <= taken
  {
    PowerOnInv();
    WordsFrom(POWER_ON, ks, n, p);
  }

  /** A word is taken if and only if the pipe has room and the peer has opened its end before. */
  lemma WriteTakenIff(c: Chain, n: nat, p: nat, data: bv64, room: bool)
    requires ChainInv(c) && Linked(n, p)
    ensures Write(c, n, p, data, room).1 <==>
            n <= LAST_NODE && room && PortAt(c, Peer(n, p).0, Peer(n, p).1).rdExists
  {
    NamesPair(n, p, n, p);
    GetPipesKeepsLink(c, n, p, n, p);
    GetPipesOpens(c, n, p, n, p);
    assert LinkInv(c, n, p);
  }

  /** A receiver is told of a word exactly when its peer has sent one it has not been given, and the
      read it may then make returns that word. */
  lemma AvailabilityIsExact(c: Chain, n: nat, p: nat)
    requires ChainInv(c) && Linked(n, p) && n <= LAST_NODE
    ensures var (c', available) := RecvAvailable(c, n, p);
            var x, peer := PortAt(c, n, p), PortAt(c, Peer(n, p).0, Peer(n, p).1);
            && (available <==> |x.got| < |peer.sent|)
            && (available ==> Proper(c', CallRead(n, p)) && Read(c', n, p).1 == peer.sent[|x.got|])
  {
    var (m, q) := Peer(n, p);
    NamesPair(n, p, n, p);
    NamesPair(m, q, n, p);
    assert LinkInv(c, m, q);
    GetPipesKeepsLink(c, n, p, m, q);
    GetPipesOpens(c, n, p, n, p);
    GetPipesOpens(c, n, p, m, q);
    var c' := RecvAvailable(c, n, p).0;
    FetchKeepsLink(GetPipes(c, n, p), n, p, m, q);
    assert LinkInv(c', m, q);
    GetPipesOpens(c', n, p, n, p);
    assert PortAt(c', m, q).sent == PortAt(c, m, q).sent;
    assert PortAt(c', n, p).got == PortAt(c, n, p).got;
  }

  /** So it is in every run, in terms of the calls alone. */
  lemma AnnouncedExactly(ks: seq<Call>, n: nat, p: nat)
    requires Linked(n, p) && n <= LAST_NODE
    ensures var (c', available) := RecvAvailable(Run(POWER_ON, ks), n, p);
            var taken := Taken(POWER_ON, ks, Peer(n, p).0, Peer(n, p).1);
            var returned := Returned(POWER_ON, ks, n, p);
            && (available <==> |returned| < |taken|)
            && (available ==> Read(c', n, p).1 == taken[|returned|])
  {
    PowerOnInv();
    AnnouncedFrom(POWER_ON, ks, n, p);
  }

  lemma AnnouncedFrom(c: Chain, ks: seq<Call>, n: nat, p: nat)
    requires ChainInv(c) && Linked(n, p) && n <= LAST_NODE
    requires PortAt(c, n, p).got == [] == PortAt(c, Peer(n, p).0, Peer(n, p).1).sent
    ensures var (c', available) := RecvAvailable(Run(c, ks), n, p);
            var taken, returned := Taken(c, ks, Peer(n, p).0, Peer(n, p).1), Returned(c, ks, n, p);
            && (available <==> |returned| < |taken|)
            && (available ==> Read(c', n, p).1 == taken[|returned|])
  {
    var (m, q) := Peer(n, p);
    NamesPair(n, p, n, p);
    RunKeepsInv(c, ks);
    RunTakes(c, ks, n, p);
    RunTakes(c, ks, m, q);
    AvailabilityIsExact(Run(c, ks), n, p);
    assert PortAt(Run(c, ks), n, p).got == Returned(c, ks, n, p);
    assert PortAt(Run(c, ks), m, q).sent == Taken(c, ks, m, q);
  }
}
