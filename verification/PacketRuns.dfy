/** Whole runs of the packet pipeline: any interleaving of the fast path and the coprocessors. */
module PacketRuns {
  import opened PacketSwitch
  import opened PacketInvariant

  ghost predicate Behaviour(s: State, actions: seq<Action>)
    decreases |actions|
  {
    actions == [] || (Defined(s, actions[0]) && Behaviour(Step(s, actions[0]), actions[1..]))
  }

  ghost function Run(s: State, actions: seq<Action>): State
    requires Behaviour(s, actions)
    decreases |actions|
  {
    if actions == [] then s else Run(Step(s, actions[0]), actions[1..])
  }

  lemma {:induction false} EmptyTotals(lanes: seq<Lane>)
    requires forall i :: 0 <= i < |lanes| ==> lanes[i] == EMPTY_LANE
    ensures TotalRx(lanes) == 0 && TotalRouted(lanes) == 0
  {
    if lanes != [] {
      EmptyTotals(lanes[..|lanes| - 1]);
    }
  }

  lemma {:induction false} EmptyUnion(bags: seq<multiset<Packet>>)
    requires forall i :: 0 <= i < |bags| ==> bags[i] == multiset{}
    ensures Union(bags) == multiset{}
  {
    if bags != [] {
      EmptyUnion(bags[..|bags| - 1]);
    }
  }

  lemma InitialKeeps(s: State)
    requires Initial(s)
    ensures Inv(s)
  {
    Aspects(s);
    EmptyTotals(s.lanes);
    assert Bag(EMPTY_LANE) == multiset{};
    EmptyUnion(BagOfEach(s.lanes));
    assert Chain(EMPTY_LANE, []) == [];
    forall i | 0 <= i < |s.lanes|
      ensures LaneInv(s, i)
    {
      LaneAspects(EMPTY_LANE, [], s.cfg, i, s.received, 0);
    }
  }

  lemma {:induction false} RunKeeps(s: State, actions: seq<Action>)
    requires Inv(s) && Behaviour(s, actions)
    ensures Inv(Run(s, actions))
    decreases |actions|
  {
    if actions != [] {
      match actions[0] {
        case Fast(answer) => FastKeeps(s, answer);
        case Coproc(i, count) => CoprocKeeps(s, i, count);
      }
      RunKeeps(Step(s, actions[0]), actions[1..]);
    }
  }

  // ---------------------------------------------------------------- what the runs guarantee

  /** The elements of `b` that satisfy `keep`, in order. */
  function Filter(b: seq<Packet>, keep: Packet -> bool): seq<Packet> {
    if b == [] then []
    else Filter(b[..|b| - 1], keep) + (if keep(b[|b| - 1]) then [b[|b| - 1]] else [])
  }

  /** a arises from b by leaving elements out. */
  predicate Subsequence(a: seq<Packet>, b: seq<Packet>) {
    if a == [] then true
    else if b == [] then false
    else if a[|a| - 1] == b[|b| - 1] then Subsequence(a[..|a| - 1], b[..|b| - 1])
    else Subsequence(a, b[..|b| - 1])
  }

  lemma FilterPrefix(b: seq<Packet>, keep: Packet -> bool)
    requires b != []
    ensures var f, f0 := Filter(b, keep), Filter(b[..|b| - 1], keep);
            f0 <= f && (keep(b[|b| - 1]) ==> f == f0 + [b[|b| - 1]]) && (!keep(b[|b| - 1]) ==> f == f0)
  {
  }

  /** Of increasing packets taken from b, only the last can be the last of b. */
  lemma OnlyLastIsLast(a: seq<Packet>, b: seq<Packet>, k: nat)
    requires Increasing(a) && Increasing(b) && k < |a| && a[k] in b && a[|a| - 1] in b
    requires k < |a| - 1 || a[k] != b[|b| - 1]
    ensures a[k] in b[..|b| - 1]
  {
    var j :| 0 <= j < |b| && b[j] == a[k];
    var m :| 0 <= m < |b| && b[m] == a[|a| - 1];
    assert k < |a| - 1 ==> a[k].id < a[|a| - 1].id;
    assert m < |b| - 1 ==> b[m].id < b[|b| - 1].id;
    assert j < |b| - 1;
    assert b[..|b| - 1][j] == a[k];
  }

  ghost predicate TakenFrom(a: seq<Packet>, b: seq<Packet>, keep: Packet -> bool) {
    forall k :: 0 <= k < |a| ==> a[k] in b && keep(a[k])
  }

  lemma TakenFromShorter(a: seq<Packet>, b: seq<Packet>, keep: Packet -> bool, m: nat)
    requires Increasing(a) && Increasing(b) && TakenFrom(a, b, keep) && a != [] && b != [] && m <= |a|
    requires m == |a| ==> a[m - 1] != b[|b| - 1]
    ensures TakenFrom(a[..m], b[..|b| - 1], keep)
    ensures Increasing(a[..m]) && Increasing(b[..|b| - 1])
  {
    assert a[|a| - 1] in b;
    forall k | 0 <= k < m
      ensures a[k] in b[..|b| - 1]
    {
      OnlyLastIsLast(a, b, k);
    }
  }

  lemma KeepLast(a: seq<Packet>, b: seq<Packet>, keep: Packet -> bool)
    requires a != [] && b != [] && a[|a| - 1] == b[|b| - 1] && keep(b[|b| - 1])
    requires Subsequence(a[..|a| - 1], Filter(b[..|b| - 1], keep))
    ensures Subsequence(a, Filter(b, keep))
  {
    var f := Filter(b[..|b| - 1], keep);
    FilterPrefix(b, keep);
    assert (f + [b[|b| - 1]])[..|f|] == f;
  }

  lemma SkipLast(a: seq<Packet>, b: seq<Packet>, keep: Packet -> bool)
    requires a != [] && b != [] && a[|a| - 1] != b[|b| - 1]
    requires Subsequence(a, Filter(b[..|b| - 1], keep))
    ensures Subsequence(a, Filter(b, keep))
  {
    var f := Filter(b[..|b| - 1], keep);
    FilterPrefix(b, keep);
    assert (f + [b[|b| - 1]])[..|f|] == f;
  }

  /** Numbered packets in increasing order, all taken from b, are a subsequence of its kept elements. */
  lemma {:induction false} IncreasingIsSubsequence(a: seq<Packet>, b: seq<Packet>, keep: Packet -> bool)
    requires Increasing(a) && Increasing(b) && TakenFrom(a, b, keep)
    ensures Subsequence(a, Filter(b, keep))
    decreases |b|
  {
    if a != [] {
      var m := |a| - 1;
      assert a[m] in b && keep(a[m]);
      if a[m] == b[|b| - 1] {
        TakenFromShorter(a, b, keep, m);
        IncreasingIsSubsequence(a[..m], b[..|b| - 1], keep);
        KeepLast(a, b, keep);
      } else {
        TakenFromShorter(a, b, keep, |a|);
        assert a[..|a|] == a;
        IncreasingIsSubsequence(a, b[..|b| - 1], keep);
        SkipLast(a, b, keep);
      }
    }
  }

  /** The packets bound for port i that the network function accepts. */
  ghost function Wanted(cfg: Config, i: nat): Packet -> bool
    requires ConfigOk(cfg)
  {
    (p: Packet) => NextHop(cfg.table, p.frame) == i && cfg.accepts(p)
  }

  lemma DeliveredInOrder(s: State, i: nat)
    requires Inv(s) && i < |s.lanes|
    ensures ConfigOk(s.cfg) && |s.lanes| == s.cfg.ports
    ensures Increasing(s.lanes[i].delivered)
    ensures Subsequence(s.lanes[i].delivered, Filter(s.received, Wanted(s.cfg, i)))
  {
    LaneOf(s, i);
    LaneAspects(s.lanes[i], Carried(s, i), s.cfg, i, s.received, Frontier(s));
    var l := s.lanes[i];
    var chain := Chain(l, Carried(s, i));
    assert forall k :: 0 <= k < |l.delivered| ==> l.delivered[k] == chain[k];
    IncreasingIsSubsequence(l.delivered, s.received, Wanted(s.cfg, i));
  }

  /**
    In every run of the pipeline, whatever arrives and however the threads interleave: each port is given a
    subsequence of the accepted packets routed to it, in the order of their arrival and without duplicates.
   */
  lemma EveryRunDeliversInOrder(s: State, actions: seq<Action>, i: nat)
    requires Initial(s) && Behaviour(s, actions) && i < s.cfg.ports
    ensures var s' := Run(s, actions);
            && i < |s'.lanes|
            && Increasing(s'.lanes[i].delivered)
            && ConfigOk(s'.cfg)
            && Subsequence(s'.lanes[i].delivered, Filter(s'.received, Wanted(s'.cfg, i)))
  {
    InitialKeeps(s);
    RunKeeps(s, actions);
    ConfigStays(s, actions);
    LanesStay(s, actions);
    DeliveredInOrder(Run(s, actions), i);
  }

  lemma {:induction false} LanesStay(s: State, actions: seq<Action>)
    requires Behaviour(s, actions)
    ensures |Run(s, actions).lanes| == |s.lanes|
    decreases |actions|
  {
    if actions != [] {
      LanesStay(Step(s, actions[0]), actions[1..]);
    }
  }

  lemma {:induction false} ConfigStays(s: State, actions: seq<Action>)
    requires Behaviour(s, actions)
    ensures Run(s, actions).cfg == s.cfg
    decreases |actions|
  {
    if actions != [] {
      ConfigStays(Step(s, actions[0]), actions[1..]);
    }
  }

  /** In how many places packet p is: with the fast path, in a lane, freed, leaked. */
  ghost function Places(s: State, p: Packet): nat {
    multiset(s.burst)[p] + Bags(s.lanes)[p] + multiset(s.freed)[p] + multiset(s.leaked)[p]
  }

  lemma {:induction false} NumberedOnce(ps: seq<Packet>, p: Packet)
    requires Increasing(ps)
    ensures multiset(ps)[p] == if p in ps then 1 else 0
  {
    if ps != [] {
      var n := |ps| - 1;
      assert ps == ps[..n] + [ps[n]];
      NumberedOnce(ps[..n], p);
    }
  }

  lemma ConservedPlaces(s: State, p: Packet)
    requires Conserved(s)
    ensures multiset(s.received)[p] == Places(s, p)
  {
  }

  /** Every received packet is in exactly one place at every moment, and nothing else is anywhere. */
  lemma EveryRunConserves(s: State, actions: seq<Action>, p: Packet)
    requires Initial(s) && Behaviour(s, actions)
    ensures var s' := Run(s, actions);
            Places(s', p) == if p in s'.received then 1 else 0
  {
    InitialKeeps(s);
    RunKeeps(s, actions);
    var s' := Run(s, actions);
    Aspects(s');
    NumberedOnce(s'.received, p);
    ConservedPlaces(s', p);
  }

  /** The routing table never names a port that does not exist. */
  ghost predicate TableClosed(cfg: Config) {
    && |cfg.table| == TABLE_SIZE
    && forall j :: 0 <= j < |cfg.table| ==> cfg.table[j] < cfg.ports || cfg.table[j] == UNKNOWN_PORT
  }

  lemma {:induction false} ClosedTableLeaksNothing(s: State, actions: seq<Action>)
    requires Behaviour(s, actions) && TableClosed(s.cfg)
    ensures Run(s, actions).leaked == s.leaked
    decreases |actions|
  {
    if actions != [] {
      ClosedTableLeaksNothing(Step(s, actions[0]), actions[1..]);
    }
  }

  lemma TwoActions(s: State, a: Action, b: Action)
    requires Defined(s, a) && Defined(Step(s, a), b)
    ensures Behaviour(s, [a, b]) && Run(s, [a, b]) == Step(Step(s, a), b)
  {
    var s1, s2 := Step(s, a), Step(Step(s, a), b);
    assert [a, b][1..] == [b] && [b][1..] == [];
    assert Behaviour(s2, []) && Run(s2, []) == s2;
    assert Behaviour(s1, [b]) && Run(s1, [b]) == s2;
  }

  lemma PollOne(s: State, frame: Frame)
    requires Initial(s)
    ensures var poll := Answer([frame], 0);
            && FastDefined(s, poll)
            && var s1 := FastStep(s, poll);
               s1.burst == [Packet(0, frame)] && s1.fast == Route(0) && s1.leaked == [] && s1.cfg == s.cfg
               && |s1.lanes| == |s.lanes|
  {
    assert Arrive(0, [frame]) == [Packet(0, frame)];
  }

  /** An open table loses packets: some frame takes the silent return as soon as it is polled and routed. */
  lemma OpenTableLeaks(s: State)
    requires Initial(s) && !TableClosed(s.cfg)
    ensures exists actions :: Behaviour(s, actions) && Run(s, actions).leaked != []
  {
    var j :| 0 <= j < TABLE_SIZE && s.cfg.ports <= s.cfg.table[j] && s.cfg.table[j] != UNKNOWN_PORT;
    var frame := Frame(ETHER_TYPE_IPV4, j);
    var poll, route := Answer([frame], 0), Answer([], 0);
    PollOne(s, frame);
    assert FastStep(FastStep(s, poll), route).leaked == [Packet(0, frame)];
    TwoActions(s, Fast(poll), Fast(route));
    assert Run(s, [Fast(poll), Fast(route)]).leaked != [];
  }

  /** What the counters of a lane call dropped, and what the network function refused. */
  function Dropped(l: Lane): nat {
    l.port.parseErr + l.nf.rxDropped + l.nf.txDropped + l.rejected + l.port.txDropped
  }

  function TotalDropped(lanes: seq<Lane>): nat {
    if lanes == [] then 0 else TotalDropped(lanes[..|lanes| - 1]) + Dropped(lanes[|lanes| - 1])
  }

  lemma {:induction false} EmptyDropped(lanes: seq<Lane>)
    requires forall i :: 0 <= i < |lanes| ==> lanes[i] == EMPTY_LANE
    ensures TotalDropped(lanes) == 0
  {
    if lanes != [] {
      EmptyDropped(lanes[..|lanes| - 1]);
    }
  }

  lemma {:induction false} DroppedUpdate(lanes: seq<Lane>, i: nat, l: Lane)
    requires i < |lanes|
    ensures TotalDropped(lanes[i := l]) == TotalDropped(lanes) - Dropped(lanes[i]) + Dropped(l)
  {
    var n := |lanes| - 1;
    var updated := lanes[i := l];
    if i == n {
      assert updated[..n] == lanes[..n];
    } else {
      DroppedUpdate(lanes[..n], i, l);
      assert updated[..n] == lanes[..n][i := l];
    }
  }

  /** An operation on lane i drops what it frees. */
  lemma PutCountsFreed(s: State, i: nat, o: Outcome)
    requires i < |s.lanes| && Dropped(o.lane) == Dropped(s.lanes[i]) + |o.freed|
    ensures TotalDropped(Put(s, i, o).lanes) - TotalDropped(s.lanes) == |Put(s, i, o).freed| - |s.freed|
  {
    DroppedUpdate(s.lanes, i, o.lane);
  }

  lemma FastCountsFreed(s: State, a: Answer)
    requires FastDefined(s, a)
    ensures var s' := FastStep(s, a);
            TotalDropped(s'.lanes) - TotalDropped(s.lanes) == |s'.freed| - |s.freed|
  {
    match s.fast
    case PollPort(i) => DroppedUpdate(s.lanes, i, FastStep(s, a).lanes[i]);
    case Route(i) => RouteCountsFreed(s, i);
    case FlushPorts(_, i) => PutCountsFreed(s, i, FlushPort(s.lanes[i], a.count));
    case FlushRxs(_, i) => PutCountsFreed(s, i, FlushRx(s.lanes[i], s.cfg.capacity));
    case PollCoproc(i) => DroppedUpdate(s.lanes, i, FastStep(s, a).lanes[i]);
    case Forward(i) =>
      if s.burst != [] {
        PutCountsFreed(s.(burst := s.burst[1..]), i, EnqueuePort(s.lanes[i], s.burst[0], a.count));
      }
  }

  lemma RouteCountsFreed(s: State, i: nat)
    requires ConfigOk(s.cfg) && |s.lanes| == s.cfg.ports && i < |s.lanes|
    ensures s.burst != [] ==>
              var s' := RouteOne(s, i);
              TotalDropped(s'.lanes) - TotalDropped(s.lanes) == |s'.freed| - |s.freed|
  {
    if s.burst != [] {
      var p, s1 := s.burst[0], s.(burst := s.burst[1..]);
      var port := NextHop(s.cfg.table, p.frame);
      if port == UNKNOWN_PORT {
        var l := s.lanes[i];
        PutCountsFreed(s1, i, Outcome(l.(port := l.port.(parseErr := l.port.parseErr + 1)), [p]));
      } else if port < s.cfg.ports {
        PutCountsFreed(s1, port, EnqueueRx(s.lanes[port], p, s.cfg.capacity));
      }
    }
  }

  lemma {:induction false} RunCountsFreed(s: State, actions: seq<Action>)
    requires Behaviour(s, actions)
    ensures var s' := Run(s, actions);
            TotalDropped(s'.lanes) - TotalDropped(s.lanes) == |s'.freed| - |s.freed|
    decreases |actions|
  {
    if actions != [] {
      match actions[0] {
        case Fast(answer) => FastCountsFreed(s, answer);
        case Coproc(i, count) =>
          PutCountsFreed(s, i, CoprocLane(s.lanes[i], s.cfg.accepts, s.cfg.capacity, count));
      }
      RunCountsFreed(Step(s, actions[0]), actions[1..]);
    }
  }

  // ---------------------------------------------------------------- every operation is defined

  /** What the ports and rings may answer to the thread that acts: never more than was asked for. */
  ghost predicate AnswerOk(s: State, a: Action)
    requires Shape(s)
  {
    match a
    case Fast(answer) =>
      (match s.fast
       case PollPort(_) => |answer.frames| <= BURST
       case Route(_) => true
       case FlushPorts(_, i) => answer.count <= |s.lanes[i].portStage|
       case FlushRxs(_, _) => true
       case PollCoproc(i) => answer.count <= BURST && answer.count <= |s.lanes[i].txRing|
       case Forward(_) => answer.count <= BURST)
    case Coproc(i, count) =>
      i < s.cfg.ports && (s.lanes[i].coproc.Poll? ==> count <= BURST && count <= |s.lanes[i].rxRing|)
  }

  lemma StageHasRoom(s: State, i: nat)
    requires Inv(s) && i < |s.lanes|
    ensures |s.lanes[i].portStage| < BURST
  {
    LaneOf(s, i);
    LaneAspects(s.lanes[i], Carried(s, i), s.cfg, i, s.received, Frontier(s));
  }

  lemma DefinedIff(s: State, a: Action)
    requires Inv(s)
    ensures Shape(s) && (Defined(s, a) <==> AnswerOk(s, a))
  {
    assert Shape(s) by { Aspects(s); }
    StageHasRoom(s, s.fast.i);
  }

  /**
    After any run no index is out of range and no staging buffer is overrun: the next operation of a thread
    is defined if and only if its answer is one that the port or the ring may give.
   */
  lemma EveryRunIsDefined(s: State, actions: seq<Action>, a: Action)
    requires Initial(s) && Behaviour(s, actions)
    ensures var s' := Run(s, actions);
            Shape(s') && (Defined(s', a) <==> AnswerOk(s', a))
  {
    InitialKeeps(s);
    RunKeeps(s, actions);
    DefinedIff(Run(s, actions), a);
  }

  /** The counters account for every packet, those freed included, and every buffer stays within its bounds. */
  lemma EveryRunBalances(s: State, actions: seq<Action>, i: nat)
    requires Initial(s) && Behaviour(s, actions) && i < s.cfg.ports
    ensures var s' := Run(s, actions);
            && i < |s'.lanes|
            && Balance(s'.lanes[i], Carried(s', i))
            && Sizes(s'.lanes[i], s'.cfg.capacity)
            && TotalRx(s'.lanes) == |s'.received|
            && TotalRouted(s'.lanes) + |s'.leaked| == Frontier(s')
            && |s'.freed| == TotalDropped(s'.lanes)
  {
    InitialKeeps(s);
    RunKeeps(s, actions);
    EmptyDropped(s.lanes);
    RunCountsFreed(s, actions);
    LanesStay(s, actions);
    var s' := Run(s, actions);
    Aspects(s');
    LaneOf(s', i);
    LaneAspects(s'.lanes[i], Carried(s', i), s'.cfg, i, s'.received, Frontier(s'));
  }
}
