/**
 The globals of one process of xilinx/aurora_64b66b/bdpi.cpp, updated in place.
 What the operating system answers comes in as parameters.
 */
module AuroraProcess {
  import opened AuroraLinks

  const WR_PORT := 8

  /** What getPipes does to the globals of one port. */
  lemma PortOpened(c: Chain, n: nat, p: nat, q: nat)
    requires Linked(n, p)
    ensures PortAt(GetPipes(c, n, p), n, q) == (
      var x := PortAt(c, n, q);
      if q != p || n > LAST_NODE then x
      else x.(rdExists := true, readRecv := x.readRecv || !x.rdExists,
              wrExists := x.wrExists || PipeAt(GetPipes(c, n, p), WriteName(n, p)).readerOpen))
  {
    NamesPair(n, p, n, p);
  }

  /** What fetching a word does to them. */
  lemma PortFetched(c: Chain, n: nat, p: nat, q: nat)
    requires Linked(n, p)
    ensures PortAt(Fetch(c, n, p).0, n, q) == (
      var x, content := PortAt(c, n, q), PipeAt(c, ReadName(n, p)).content;
      if q == p && n <= LAST_NODE && x.readRecv && content != []
      then x.(lastRead := content[0], readRecv := false) else x)
  {
  }

  /** What handing the word over does to them. */
  lemma PortGiven(c: Chain, n: nat, p: nat, q: nat)
    requires Linked(n, p)
    ensures var x, y := PortAt(c, n, q), PortAt(Give(c, n, p).0, n, q);
            && y == x.(readRecv := x.readRecv || (q == p && n <= LAST_NODE), got := y.got)
            && y.got == if q == p then x.got + [Give(c, n, p).1] else x.got
  {
  }

  class Process {
    const fifoExists: array<bool>
    const readRecv: array<bool>
    const lastRead: array<bv64>

    ghost predicate Valid()
      reads this, fifoExists, readRecv, lastRead
    {
      && fifoExists.Length == 16 && readRecv.Length == 8 && lastRead.Length == 8
      && fifoExists != readRecv && (lastRead as object) !in {fifoExists as object, readRecv as object}
    }

    /** The process is the one of node `n` in chain `c`. */
    ghost predicate Shows(c: Chain, n: nat)
      reads this, fifoExists, readRecv, lastRead
    {
      Valid() && forall p {:trigger PortShown(c, n, p)} :: 0 <= p < PORTS ==> PortShown(c, n, p)
    }

    ghost predicate PortShown(c: Chain, n: nat, p: nat)
      requires Valid() && p < PORTS
      reads this, fifoExists, readRecv, lastRead
    {
      var x := PortAt(c, n, p);
      && fifoExists[p] == x.rdExists && fifoExists[p + WR_PORT] == x.wrExists
      && readRecv[p] == x.readRecv && lastRead[p] == x.lastRead
    }

    constructor ()
      ensures Valid() && fresh(fifoExists) && fresh(readRecv) && fresh(lastRead)
      ensures forall n :: Shows(POWER_ON, n)
    {
      fifoExists := new bool[16](_ => false);
      readRecv := new bool[8](i => i == 0);
      lastRead := new bv64[8](_ => 0);
    }

    /** `writable` is whether the other side has opened the pipe this port writes. */
    method OpenPipes(n: nat, p: nat, writable: bool, ghost c: Chain) returns (ok: bool)
      requires Linked(n, p) && Shows(c, n)
      requires writable == PipeAt(GetPipes(c, n, p), WriteName(n, p)).readerOpen
      modifies fifoExists, readRecv
      ensures Shows(GetPipes(c, n, p), n)
      ensures ok <==> n <= LAST_NODE
    {
      ok := n <= LAST_NODE;
      assert PortShown(c, n, p);
      if ok && !fifoExists[p] {
        readRecv[p] := true;
        fifoExists[p] := true;
      }
      if ok && !fifoExists[p + WR_PORT] && writable {
        fifoExists[p + WR_PORT] := true;
      }
      forall q: nat | q < PORTS ensures PortShown(GetPipes(c, n, p), n, q) {
        PortOpened(c, n, p, q);
        assert old(PortShown(c, n, q));
      }
    }

    /** `read` is what reading the pipe yields: nothing, or one word. */
    method BdpiRecvAvailable(n: nat, p: nat, writable: bool, read: seq<bv64>, ghost c: Chain) returns (available: bool)
      requires Linked(n, p) && Shows(c, n)
      requires writable == PipeAt(GetPipes(c, n, p), WriteName(n, p)).readerOpen
      requires var content := PipeAt(GetPipes(c, n, p), ReadName(n, p)).content;
               read == if content == [] then [] else [content[0]]
      modifies fifoExists, readRecv, lastRead
      ensures Shows(RecvAvailable(c, n, p).0, n)
      ensures available == RecvAvailable(c, n, p).1
    {
      ghost var c1 := GetPipes(c, n, p);
      available := OpenPipes(n, p, writable, c);
      label pipesOpen: assert PortShown(c1, n, p);
      if available && readRecv[p] {
        available := read != [];
        if available {
          lastRead[p] := read[0];
          readRecv[p] := false;
        }
      }
      forall q: nat | q < PORTS ensures PortShown(Fetch(c1, n, p).0, n, q) {
        PortFetched(c1, n, p, q);
        assert old@pipesOpen(PortShown(c1, n, q));
      }
    }

    method BdpiRead(n: nat, p: nat, writable: bool, ghost c: Chain) returns (data: bv64)
      requires Linked(n, p) && Shows(c, n)
      requires writable == PipeAt(GetPipes(c, n, p), WriteName(n, p)).readerOpen
      modifies fifoExists, readRecv
      ensures Shows(Read(c, n, p).0, n)
      ensures data == Read(c, n, p).1
    {
      ghost var c1 := GetPipes(c, n, p);
      var ok := OpenPipes(n, p, writable, c);
      label pipesOpen: assert PortShown(c1, n, p);
      data := BAD_READ;
      if ok {
        readRecv[p] := true;
        data := lastRead[p];
      }
      forall q: nat | q < PORTS ensures PortShown(Give(c1, n, p).0, n, q) {
        PortGiven(c1, n, p, q);
        assert old@pipesOpen(PortShown(c1, n, q));
      }
    }

    /** `room` is whether the pipe takes the whole word; `put` is the word written to it, if any. */
    method BdpiWrite(n: nat, p: nat, data: bv64, writable: bool, room: bool, ghost c: Chain)
      returns (sent: bool, put: seq<bv64>)
      requires Linked(n, p) && Shows(c, n)
      requires writable == PipeAt(GetPipes(c, n, p), WriteName(n, p)).readerOpen
      modifies fifoExists, readRecv
      ensures Shows(Write(c, n, p, data, room).0, n)
      ensures sent == Write(c, n, p, data, room).1 && put == if sent then [data] else []
    {
      ghost var c1 := GetPipes(c, n, p);
      var ok := OpenPipes(n, p, writable, c);
      assert PortShown(c1, n, p);
      sent := ok && fifoExists[p + WR_PORT] && room;
      put := if sent then [data] else [];
      forall q: nat | q < PORTS ensures PortShown(Put(c1, n, p, data, room).0, n, q) {
        assert PortShown(c1, n, q);
      }
    }
  }
}
