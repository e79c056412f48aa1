/**
 The blocks each test of projects/flash_multinode/main.cpp goes over, and why
 hosts running the many-to-many test together each have their own.
 */
module FlashPlans {
  import opened FlashHost
  import opened FlashCluster
  import opened FlashRuns

  /** The `i`-th block of the nested loops over every `stride`-th block from `first`, chips, buses, nodes. */
  function StrideAddr(first: nat, stride: nat, i: nat): Addr {
    Addr(i % NUM_NODES, i / 4 % NUM_BUSES, i / 32 % CHIPS_PER_BUS, first + stride * (i / 256))
  }

  function StrideRounds(first: nat, stride: nat): nat
    requires 0 < stride
  {
    if first >= BLOCKS_PER_CHIP then 0 else (BLOCKS_PER_CHIP - first + stride - 1) / stride
  }

  function Stride(first: nat, stride: nat): (s: seq<Addr>)
    requires 0 < stride
    ensures |s| == 256 * StrideRounds(first, stride)
  {
    seq(256 * StrideRounds(first, stride), i requires i >= 0 => StrideAddr(first, stride, i))
  }

  lemma Digits(q: nat, chip: nat, bus: nat, node: nat)
    requires chip < 8 && bus < 8 && node < 4
    ensures var i := 256 * q + 32 * chip + 4 * bus + node;
            i % 4 == node && i / 4 % 8 == bus && i / 32 % 8 == chip && i / 256 == q
  {
    var i := 256 * q + 32 * chip + 4 * bus + node;
    assert i / 4 == 64 * q + 8 * chip + bus;
    assert i / 32 == 8 * q + chip;
  }

  /** The issue loops of many_to_many_test (stride NUM_NODES from the host's own id) and of
      one_to_many_test (stride 1 from 0). */
  method IssueOrder(first: nat, stride: nat) returns (order: seq<Addr>)
    requires 0 < stride
    ensures order == Stride(first, stride)
  {
    order := [];
    var blk := first;
    ghost var q := 0;
    while blk < BLOCKS_PER_CHIP
      invariant blk == first + stride * q && q <= StrideRounds(first, stride)
      invariant blk >= BLOCKS_PER_CHIP ==> q == StrideRounds(first, stride)
      invariant |order| == 256 * q
      invariant forall i :: 0 <= i < |order| ==> order[i] == StrideAddr(first, stride, i)
    {
      RoundsLeft(first, stride, q);
      var chip := 0;
      while chip < CHIPS_PER_BUS
        invariant chip <= CHIPS_PER_BUS && |order| == 256 * q + 32 * chip
        invariant forall i :: 0 <= i < |order| ==> order[i] == StrideAddr(first, stride, i)
      {
        var bus := 0;
        while bus < NUM_BUSES
          invariant bus <= NUM_BUSES && |order| == 256 * q + 32 * chip + 4 * bus
          invariant forall i :: 0 <= i < |order| ==> order[i] == StrideAddr(first, stride, i)
        {
          var node := 0;
          while node < NUM_NODES
            invariant node <= NUM_NODES && |order| == 256 * q + 32 * chip + 4 * bus + node
            invariant forall i :: 0 <= i < |order| ==> order[i] == StrideAddr(first, stride, i)
          {
            Digits(q, chip, bus, node);
            order := order + [Addr(node, bus, chip, blk)];
            node := node + 1;
          }
          bus := bus + 1;
        }
        chip := chip + 1;
      }
      blk := blk + stride;
      q := q + 1;
    }
  }

  lemma Scales(stride: nat, a: nat, b: nat)
    requires a <= b
    ensures stride * a <= stride * b
  {
  }

  lemma RoundsLeft(first: nat, stride: nat, q: nat)
    requires 0 < stride && first + stride * q < BLOCKS_PER_CHIP
    ensures q + 1 <= StrideRounds(first, stride)
    ensures first + stride * (q + 1) >= BLOCKS_PER_CHIP ==> q + 1 == StrideRounds(first, stride)
  {
    var room := BLOCKS_PER_CHIP - first;
    var r := StrideRounds(first, stride);
    assert stride * r <= room + stride - 1 < stride * r + stride;
    assert stride * (q + 1) == stride * q + stride;
    if q + 1 > r {
      Scales(stride, r, q);
    } else if q + 1 < r {
      Scales(stride, q + 2, r);
      assert stride * (q + 2) == stride * (q + 1) + stride;
    }
  }

  /** many_to_many_test(check, test_repeat, read_repeat): more than ten repeats are refused; a repeat
      count below one is complained about but only makes its own loop empty, so that without read
      repeats the rounds still erase, read and write. */
  function ManyToMany(myid: nat, check: bool, testRepeat: int, readRepeat: int): Plan {
    Plan(Stride(myid, NUM_NODES), check,
         if testRepeat > 10 || testRepeat < 0 then 0 else testRepeat,
         if readRepeat < 0 then 0 else readRepeat)
  }

  /** The stride of a test: every block from 0, or every fourth from the host's id. */
  predicate TestStride(first: nat, stride: nat) {
    first < stride && (stride == 1 || stride == NUM_NODES)
  }

  lemma Undigits(i: nat)
    ensures i == 256 * (i / 256) + 32 * (i / 32 % CHIPS_PER_BUS) + 4 * (i / 4 % NUM_BUSES) + i % NUM_NODES
  {
    assert i / 4 == 8 * (i / 32) + i / 4 % 8;
    assert i / 32 == 8 * (i / 256) + i / 32 % 8;
  }

  lemma StrideBlock(first: nat, stride: nat, q: nat)
    requires TestStride(first, stride) && q < StrideRounds(first, stride)
    ensures var block := first + stride * q;
            block < BLOCKS_PER_CHIP && block % stride == first && block / stride == q
  {
  }

  lemma StridePosition(first: nat, stride: nat, i: nat)
    requires TestStride(first, stride) && i < |Stride(first, stride)|
    ensures var a := Stride(first, stride)[i];
            && OnBoard(a) && a.block % stride == first
            && i == 256 * (a.block / stride) + 32 * a.chip + 4 * a.bus + a.node
  {
    Undigits(i);
    StrideBlock(first, stride, i / 256);
  }

  /** The blocks of one host: each on the boards, none twice. */
  lemma StridePlanOk(p: Plan, first: nat, stride: nat)
    requires TestStride(first, stride) && p.blocks == Stride(first, stride)
    ensures PlanOk(p)
  {
    forall i | 0 <= i < |p.blocks|
      ensures OnBoard(p.blocks[i])
    {
      StridePosition(first, stride, i);
    }
    forall i, j | 0 <= i < j < |p.blocks|
      ensures p.blocks[i] != p.blocks[j]
    {
      StridePosition(first, stride, i);
      StridePosition(first, stride, j);
    }
  }

  /** The hosts' blocks are those of their own residue: disjoint, and together every block there is. */
  lemma StrideMembers(myid: nat, a: Addr)
    requires myid < NUM_NODES
    ensures a in Stride(myid, NUM_NODES) <==> OnBoard(a) && a.block % NUM_NODES == myid
  {
    var s := Stride(myid, NUM_NODES);
    if a in s {
      var i :| 0 <= i < |s| && s[i] == a;
      StridePosition(myid, NUM_NODES, i);
    }
    if OnBoard(a) && a.block % NUM_NODES == myid {
      Digits(a.block / NUM_NODES, a.chip, a.bus, a.node);
      var i := 256 * (a.block / NUM_NODES) + 32 * a.chip + 4 * a.bus + a.node;
      assert a.block == myid + NUM_NODES * (a.block / NUM_NODES);
      assert s[i] == a;
    }
  }

  /** Hosts with different ids have their own blocks. */
  lemma DistinctIdsOwnBlocks(plans: seq<Plan>, ids: seq<nat>)
    requires |plans| == |ids|
    requires forall i :: 0 <= i < |ids| ==> ids[i] < NUM_NODES && plans[i].blocks == Stride(ids[i], NUM_NODES)
    requires forall i, j :: 0 <= i < j < |ids| ==> ids[i] != ids[j]
    ensures OwnBlocks(plans)
  {
    forall i, j, a | 0 <= i < |plans| && 0 <= j < |plans| && i != j && a in plans[i].blocks
      ensures a !in plans[j].blocks
    {
      StrideMembers(ids[i], a);
      StrideMembers(ids[j], a);
    }
  }

  /** many_to_many_test run by any hosts with different ids, on a well-behaved fabric, from any state of
      boards and status tables: every verdict is `pass` throughout. */
  lemma ManyToManyPasses(ids: seq<nat>, plans: seq<Plan>, c: Cluster, check: bool, testRepeat: int, readRepeat: int,
                         es: seq<Event>)
    requires |ids| == |plans| == |c.nodes|
    requires forall i :: 0 <= i < |ids| ==>
               ids[i] < NUM_NODES && plans[i] == ManyToMany(ids[i], check, testRepeat, readRepeat)
    requires forall i, j :: 0 <= i < j < |ids| ==> ids[i] != ids[j]
    requires forall i :: 0 <= i < |ids| ==> Starting(c.nodes[i])
    requires WellBehavedRun(plans, c, es)
    ensures forall i :: 0 <= i < |ids| ==>
              Run(plans, c, es).nodes[i].host.testPass && Run(plans, c, es).nodes[i].host.errors == 0
  {
    DistinctIdsOwnBlocks(plans, ids);
    forall i | 0 <= i < |ids|
      ensures PlanOk(plans[i])
    {
      StridePlanOk(plans[i], ids[i], NUM_NODES);
    }
    forall i | 0 <= i < |ids|
      ensures Run(plans, c, es).nodes[i].host.testPass && Run(plans, c, es).nodes[i].host.errors == 0
    {
      TestsPass(plans, c, es, i);
    }
  }

  /** The blocks of local_test: those of the host's own node. */
  function Local(node: nat): (s: seq<Addr>)
    ensures |s| == 64 * BLOCKS_PER_CHIP
  {
    seq(64 * BLOCKS_PER_CHIP, i requires i >= 0 => LocalAddr(node, i))
  }

  function LocalAddr(node: nat, i: nat): Addr {
    Addr(node, i % NUM_BUSES, i / 8 % CHIPS_PER_BUS, i / 64)
  }

  lemma LocalDigits(node: nat, blk: nat, chip: nat, bus: nat)
    requires chip < 8 && bus < 8
    ensures LocalAddr(node, 64 * blk + 8 * chip + bus) == Addr(node, bus, chip, blk)
  {
    var i := 64 * blk + 8 * chip + bus;
    assert i / 8 == 8 * blk + chip;
  }

  /** The issue loops of local_test. */
  method LocalOrder(node: nat) returns (order: seq<Addr>)
    ensures order == Local(node)
  {
    order := [];
    for blk := 0 to BLOCKS_PER_CHIP
      invariant |order| == 64 * blk
      invariant forall i :: 0 <= i < |order| ==> order[i] == LocalAddr(node, i)
    {
      for chip := 0 to CHIPS_PER_BUS
        invariant |order| == 64 * blk + 8 * chip
        invariant forall i :: 0 <= i < |order| ==> order[i] == LocalAddr(node, i)
      {
        for bus := 0 to NUM_BUSES
          invariant |order| == 64 * blk + 8 * chip + bus
          invariant forall i :: 0 <= i < |order| ==> order[i] == LocalAddr(node, i)
        {
          LocalDigits(node, blk, chip, bus);
          order := order + [Addr(node, bus, chip, blk)];
        }
      }
    }
  }

  lemma LocalPlanOk(p: Plan, node: nat)
    requires node < NUM_NODES && p.blocks == Local(node)
    ensures PlanOk(p)
  {
    forall i | 0 <= i < |p.blocks|
      ensures OnBoard(p.blocks[i])
      ensures i == 64 * p.blocks[i].block + 8 * p.blocks[i].chip + p.blocks[i].bus
    {
      assert i / 8 == 8 * (i / 64) + i / 8 % 8;
    }
  }

  /** A single host passes its test, on its own node or over all nodes, whatever the boards held before. */
  lemma SingleHostPasses(p: Plan, n: Node, flash: map<Addr, Content>, es: seq<Event>, node: nat)
    requires Starting(n) && node < NUM_NODES && p.blocks in [Stride(0, 1), Local(node)]
    requires WellBehavedRun([p], Cluster([n], flash), es)
    ensures Run([p], Cluster([n], flash), es).nodes[0].host.testPass
    ensures Run([p], Cluster([n], flash), es).nodes[0].host.errors == 0
  {
    if p.blocks == Local(node) {
      LocalPlanOk(p, node);
    } else {
      StridePlanOk(p, 0, 1);
    }
    TestsPass([p], Cluster([n], flash), es, 0);
  }
}
