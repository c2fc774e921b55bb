/**
  CPU sets and the choice of a CPU for a task (ghost_agent/net_scheduler.cc).

  A CpuList is a bitmap: it is modelled as a finite set that is walked in increasing id order.
 */
module CpuLists {
  import opened Options

  type CpuId = nat

  /** What the scheduler asks of the machine: hyperthread siblings, L3 siblings and the NUMA node. */
  datatype Topology = Topology(
    siblings: CpuId -> set<CpuId>,
    l3Siblings: CpuId -> set<CpuId>,
    numaNode: CpuId -> int)

  ghost predicate IsFront(cpus: set<CpuId>, m: CpuId) {
    m in cpus && forall c :: c in cpus ==> m <= c
  }

  lemma {:induction false} FrontExists(cpus: set<CpuId>)
    requires cpus != {}
    ensures exists m :: IsFront(cpus, m)
    decreases |cpus|
  {
    var x :| x in cpus;
    var rest := cpus - {x};
    assert forall c :: c in cpus ==> c == x || c in rest;
    if rest == {} {
      assert IsFront(cpus, x);
    } else {
      FrontExists(rest);
      var m :| IsFront(rest, m);
      assert IsFront(cpus, if x <= m then x else m);
    }
  }

  /** The lowest CPU id of a non-empty list. */
  function Front(cpus: set<CpuId>): (m: CpuId)
    requires cpus != {}
    ensures IsFront(cpus, m)
  {
    FrontExists(cpus);
    assert exists m :: m in cpus && forall c :: c in cpus ==> m <= c by {
      var m :| IsFront(cpus, m);
      assert m in cpus;
    }
    var m :| m in cpus && forall c :: c in cpus ==> m <= c;
    m
  }

  function FrontOrNone(cpus: set<CpuId>): (m: Option<CpuId>)
    ensures m.None? <==> cpus == {}
    ensures m.Some? ==> m.value in cpus && forall c :: c in cpus ==> m.value <= c
  {
    if cpus == {} then None else Some(Front(cpus))
  }

  /** The CPUs of `avail` that a task may use. */
  function Permitted(avail: set<CpuId>, allowed: set<CpuId>, enforceAffinity: bool): (r: set<CpuId>)
    ensures forall c :: c in r <==> c in avail && (enforceAffinity ==> c in allowed)
  {
    if enforceAffinity then allowed * avail else avail
  }

  /**
    How far `c` is from the CPU a task last ran on: the same CPU, a sibling, the same L3,
    the same NUMA node, or anything else. Without history every CPU is equally far.
   */
  function Distance(topology: Topology, last: Option<CpuId>, c: CpuId): (d: nat)
    ensures d <= 4
  {
    match last
    case None => 4
    case Some(p) =>
      if c == p then 0
      else if c in topology.siblings(p) then 1
      else if c in topology.l3Siblings(p) then 2
      else if topology.numaNode(c) == topology.numaNode(p) then 3
      else 4
  }

  /** `c` is the closest of `cpus`, and the lowest numbered among the closest. */
  ghost predicate IsBest(topology: Topology, last: Option<CpuId>, cpus: set<CpuId>, c: CpuId) {
    && c in cpus
    && forall d :: d in cpus ==>
         || Distance(topology, last, c) < Distance(topology, last, d)
         || (Distance(topology, last, c) == Distance(topology, last, d) && c <= d)
  }

  lemma {:induction false} BestExists(topology: Topology, last: Option<CpuId>, cpus: set<CpuId>)
    requires cpus != {}
    ensures exists c :: IsBest(topology, last, cpus, c)
    decreases |cpus|
  {
    var x :| x in cpus;
    if cpus == {x} {
      assert IsBest(topology, last, cpus, x);
    } else {
      var rest := cpus - {x};
      BestExists(topology, last, rest);
      var m :| IsBest(topology, last, rest, m);
      assert forall c :: c in cpus ==> c == x || c in rest;
      var better := if Distance(topology, last, x) < Distance(topology, last, m)
                       || (Distance(topology, last, x) == Distance(topology, last, m) && x <= m)
                    then x else m;
      assert IsBest(topology, last, cpus, better);
    }
  }

  /** The specification of the choice: nothing from an empty list, otherwise the unique best CPU. */
  ghost function BestCpu(topology: Topology, last: Option<CpuId>, cpus: set<CpuId>): (c: Option<CpuId>)
    ensures c.None? <==> cpus == {}
    ensures c.Some? ==> IsBest(topology, last, cpus, c.value)
  {
    if cpus == {} then None
    else
      BestExists(topology, last, cpus);
      var c :| IsBest(topology, last, cpus, c);
      Some(c)
  }

  lemma BestUnique(topology: Topology, last: Option<CpuId>, cpus: set<CpuId>, c: CpuId)
    requires IsBest(topology, last, cpus, c)
    ensures BestCpu(topology, last, cpus) == Some(c)
  {
    var b := BestCpu(topology, last, cpus).value;
    assert IsBest(topology, last, cpus, b) && b in cpus;
  }

  /** The lowest CPU of a class at one distance, when all the other CPUs are farther away. */
  lemma BestOfClass(topology: Topology, last: Option<CpuId>, cpus: set<CpuId>, near: set<CpuId>, distance: nat,
                    c: CpuId)
    requires near <= cpus && IsFront(near, c)
    requires forall d :: d in near ==> Distance(topology, last, d) == distance
    requires forall d :: d in cpus && d !in near ==> Distance(topology, last, d) > distance
    ensures BestCpu(topology, last, cpus) == Some(c)
  {
    assert IsBest(topology, last, cpus, c);
    BestUnique(topology, last, cpus, c);
  }

  /**
    The choice, class by class: the CPU the task last ran on, else the lowest of its siblings, else of those
    that share its L3 cache, else of those on its NUMA node, else the lowest of all.
   */
  lemma BestCpuIs(topology: Topology, last: Option<CpuId>, cpus: set<CpuId>)
    requires cpus != {}
    ensures var c := BestCpu(topology, last, cpus).value;
            if last.None? then IsFront(cpus, c)
            else
              var p := last.value;
              var siblings, l3, node := cpus * topology.siblings(p), cpus * topology.l3Siblings(p),
                                        OnNode(cpus, topology.numaNode(p), topology);
              if p in cpus then c == p
              else if siblings != {} then IsFront(siblings, c)
              else if l3 != {} then IsFront(l3, c)
              else if node != {} then IsFront(node, c)
              else IsFront(cpus, c)
  {
    var c := BestCpu(topology, last, cpus).value;
    if last.Some? {
      var p := last.value;
      var siblings, l3, node := cpus * topology.siblings(p), cpus * topology.l3Siblings(p),
                                OnNode(cpus, topology.numaNode(p), topology);
      if p in cpus {
        assert Distance(topology, last, p) == 0;
      } else if x :| x in siblings {
        assert Distance(topology, last, x) == 1;
      } else if x :| x in l3 {
        assert x !in siblings && Distance(topology, last, x) == 2;
        assert c !in siblings;
      } else if x :| x in node {
        assert x !in siblings && x !in l3 && Distance(topology, last, x) == 3;
        assert c !in siblings && c !in l3;
      } else {
        assert forall d :: d in cpus ==> d !in siblings && d !in l3 && d !in node;
      }
    }
  }

  /** The first CPU on the given node. */
  method FirstOnNode(cpus: set<CpuId>, node: int, topology: Topology) returns (cpu: Option<CpuId>)
    ensures cpu == FrontOrNone(OnNode(cpus, node, topology))
  {
    var rest := cpus;
    while rest != {}
      invariant rest <= cpus && OnNode(rest, node, topology) == OnNode(cpus, node, topology)
      decreases |rest|
    {
      var c := Front(rest);
      if node == topology.numaNode(c) {
        FrontIsUnique(OnNode(rest, node, topology), c);
        return Some(c);
      }
      rest := rest - {c};
    }
    return None;
  }

  function OnNode(cpus: set<CpuId>, node: int, topology: Topology): set<CpuId> {
    set c | c in cpus && topology.numaNode(c) == node
  }

  lemma FrontIsUnique(cpus: set<CpuId>, c: CpuId)
    requires IsFront(cpus, c)
    ensures FrontOrNone(cpus) == Some(c)
  {
  }

  /** The search as the scheduler performs it, one locality class after the other. */
  method PickNextCpu(avail: set<CpuId>, allowed: set<CpuId>, last: Option<CpuId>, enforceAffinity: bool,
                     topology: Topology)
    returns (cpu: Option<CpuId>)
    ensures cpu == BestCpu(topology, last, Permitted(avail, allowed, enforceAffinity))
  {
    var cpus := Permitted(avail, allowed, enforceAffinity);
    if cpus == {} {
      return None;
    }
    if last.None? {
      cpu := FrontOrNone(cpus);
      BestOfClass(topology, last, cpus, cpus, 4, cpu.value);
      return;
    }
    var previous := last.value;
    if previous in cpus {
      BestOfClass(topology, last, cpus, {previous}, 0, previous);
      return Some(previous);
    }
    var siblings := cpus * topology.siblings(previous);
    cpu := FrontOrNone(siblings);
    if cpu.Some? {
      BestOfClass(topology, last, cpus, siblings, 1, cpu.value);
      return;
    }
    assert forall c :: c in cpus ==> c !in topology.siblings(previous) by {
      assert forall c :: c in cpus && c in topology.siblings(previous) ==> c in siblings;
    }
    var l3Siblings := cpus * topology.l3Siblings(previous);
    cpu := FrontOrNone(l3Siblings);
    if cpu.Some? {
      BestOfClass(topology, last, cpus, l3Siblings, 2, cpu.value);
      return;
    }
    assert forall c :: c in cpus ==> c !in topology.l3Siblings(previous) by {
      assert forall c :: c in cpus && c in topology.l3Siblings(previous) ==> c in l3Siblings;
    }
    cpu := FirstOnNode(cpus, topology.numaNode(previous), topology);
    ghost var onNode := OnNode(cpus, topology.numaNode(previous), topology);
    if cpu.Some? {
      BestOfClass(topology, last, cpus, onNode, 3, cpu.value);
      return;
    }
    assert forall c :: c in cpus ==> topology.numaNode(c) != topology.numaNode(previous) by {
      assert forall c :: c in cpus && topology.numaNode(c) == topology.numaNode(previous) ==> c in onNode;
    }
    cpu := FrontOrNone(cpus);
    BestOfClass(topology, last, cpus, cpus, 4, cpu.value);
  }
}
