/** The way of a packet through the pipeline: where each step takes it, and why packets are freed. */
module PacketJourney {
  import opened PacketSwitch
  import opened PacketInvariant
  import opened PacketRuns

  // ---------------------------------------------------------------- where a packet can be

  datatype Spot =
    | Polled
    | RxStage(i: nat)
    | RxRing(i: nat)
    | InCoproc(i: nat)
    | TxStage(i: nat)
    | TxRing(i: nat)
    | Forwarded(i: nat)
    | PortStage(i: nat)
    | Delivered(i: nat)
    | Freed
    | Leaked

  ghost predicate At(s: State, p: Packet, spot: Spot) {
    match spot
    case Polled => s.fast.Route? && p in s.burst
    case Forwarded(i) => s.fast == Forward(i) && p in s.burst
    case Freed => p in s.freed
    case Leaked => p in s.leaked
    case RxStage(i) => i < |s.lanes| && p in s.lanes[i].rxStage
    case RxRing(i) => i < |s.lanes| && p in s.lanes[i].rxRing
    case InCoproc(i) => i < |s.lanes| && p in s.lanes[i].burst
    case TxStage(i) => i < |s.lanes| && p in s.lanes[i].txStage
    case TxRing(i) => i < |s.lanes| && p in s.lanes[i].txRing
    case PortStage(i) => i < |s.lanes| && p in s.lanes[i].portStage
    case Delivered(i) => i < |s.lanes| && p in s.lanes[i].delivered
  }

  // ---------------------------------------------------------------- the rules of the way

  /** A full staging buffer, or one that is flushed, goes to its ring as a whole or is freed as a whole. */
  function Bulk(fits: bool, ring: Spot): Spot {
    if fits then ring else Freed
  }

  /** The packet that the fast path routes next, and its egress port. */
  ghost predicate Routes(s: State, a: Action, i: nat)
    requires Shape(s)
  {
    a.Fast? && s.fast.Route? && s.burst != [] && NextHop(s.cfg.table, s.burst[0].frame) == i
  }

  ghost predicate Processes(s: State, a: Action, i: nat) {
    a.Coproc? && a.i == i && i < |s.lanes| && s.lanes[i].coproc.Process? && s.lanes[i].burst != []
  }

  /** The packet that the fast path has polled goes where the table says. */
  ghost function FromPolled(s: State, p: Packet): Spot
    requires Shape(s)
  {
    var port := NextHop(s.cfg.table, p.frame);
    if port == UNKNOWN_PORT then Freed
    else if port >= |s.lanes| then Leaked
    else if |s.lanes[port].rxStage| + 1 < 32 then RxStage(port)
    else Bulk(|s.lanes[port].rxRing| + 32 <= s.cfg.capacity, RxRing(port))
  }

  ghost function FromRxStage(s: State, a: Action, i: nat): Spot
    requires Shape(s) && i < |s.lanes|
  {
    var l := s.lanes[i];
    if Routes(s, a, i) && i != UNKNOWN_PORT && |l.rxStage| + 1 == 32 then Bulk(|l.rxRing| + 32 <= s.cfg.capacity, RxRing(i))
    else if a.Fast? && s.fast.FlushRxs? && s.fast.i == i then
      Bulk(|l.rxRing| + |l.rxStage| <= s.cfg.capacity, RxRing(i))
    else RxStage(i)
  }

  /** A packet that the network function accepts is sent back, any other one is freed. */
  ghost function FromCoproc(s: State, p: Packet, i: nat): Spot
    requires i < |s.lanes|
  {
    var l := s.lanes[i];
    if !s.cfg.accepts(p) then Freed
    else if |l.txStage| + 1 < 32 then TxStage(i)
    else Bulk(|l.txRing| + 32 <= s.cfg.capacity, TxRing(i))
  }

  ghost function FromTxStage(s: State, a: Action, i: nat): Spot
    requires i < |s.lanes|
  {
    var l := s.lanes[i];
    if Processes(s, a, i) && s.cfg.accepts(l.burst[0]) && |l.txStage| + 1 == 32 then
      Bulk(|l.txRing| + 32 <= s.cfg.capacity, TxRing(i))
    else if a.Coproc? && a.i == i && l.coproc.FlushTx? then Bulk(|l.txRing| + |l.txStage| <= s.cfg.capacity, TxRing(i))
    else TxStage(i)
  }

  /** Of the packets that the port is offered it takes the first ones. */
  ghost function Offered(p: Packet, offered: seq<Packet>, taken: nat, i: nat): Spot
    requires taken <= |offered|
  {
    if p in offered[..taken] then Delivered(i) else Freed
  }

  ghost function FromForwarded(s: State, a: Action, p: Packet, i: nat): Spot
    requires Defined(s, a) && a.Fast? && s.fast == Forward(i) && s.burst != [] && i < |s.lanes|
  {
    var l := s.lanes[i];
    if |l.portStage| + 1 < 32 then PortStage(i)
    else Offered(p, l.portStage + [s.burst[0]], a.answer.count, i)
  }

  ghost function FromPortStage(s: State, a: Action, p: Packet, i: nat): Spot
    requires Defined(s, a) && i < |s.lanes|
  {
    var l := s.lanes[i];
    if a.Fast? && s.fast == Forward(i) && s.burst != [] && |l.portStage| + 1 == 32 then
      Offered(p, l.portStage + [s.burst[0]], a.answer.count, i)
    else if a.Fast? && s.fast.FlushPorts? && s.fast.i == i then Offered(p, l.portStage, a.answer.count, i)
    else PortStage(i)
  }

  /** Where an action takes a packet. */
  ghost function Goes(s: State, a: Action, p: Packet, spot: Spot): Spot
    requires Shape(s) && Defined(s, a) && At(s, p, spot)
  {
    match spot
    case Polled => if a.Fast? && p == s.burst[0] then FromPolled(s, p) else Polled
    case RxStage(i) => FromRxStage(s, a, i)
    case RxRing(i) =>
      if a.Coproc? && a.i == i && s.lanes[i].coproc.Poll? && p in s.lanes[i].rxRing[..a.count] then InCoproc(i)
      else RxRing(i)
    case InCoproc(i) => if Processes(s, a, i) && p == s.lanes[i].burst[0] then FromCoproc(s, p, i) else InCoproc(i)
    case TxStage(i) => FromTxStage(s, a, i)
    case TxRing(i) =>
      if a.Fast? && s.fast == PollCoproc(i) && p in s.lanes[i].txRing[..a.answer.count] then Forwarded(i)
      else TxRing(i)
    case Forwarded(i) => if a.Fast? && p == s.burst[0] then FromForwarded(s, a, p, i) else Forwarded(i)
    case PortStage(i) => FromPortStage(s, a, p, i)
    case Delivered(_) => spot
    case Freed => spot
    case Leaked => spot
  }

  // ---------------------------------------------------------------- every step follows the rules

  lemma SizesOf(s: State, i: nat)
    requires Inv(s) && i < |s.lanes|
    ensures Sizes(s.lanes[i], s.cfg.capacity)
  {
    LaneOf(s, i);
    LaneAspects(s.lanes[i], Carried(s, i), s.cfg, i, s.received, Frontier(s));
  }

  lemma InParts(p: Packet, ps: seq<Packet>, n: nat)
    requires p in ps && n <= |ps|
    ensures p in ps[..n] || p in ps[n..]
  {
    assert ps == ps[..n] + ps[n..];
  }

  /** What the fast path does to packets that it carries or that are staged for it. */
  lemma FastMoves(s: State, a: Answer, p: Packet, spot: Spot)
    requires Inv(s) && FastDefined(s, a) && Shape(s) && At(s, p, spot)
    ensures At(FastStep(s, a), p, Goes(s, Fast(a), p, spot))
  {
    match s.fast
    case PollPort(_) =>
    case Route(i) => RouteMoves(s, a, p, spot);
    case FlushPorts(_, i) => FlushPortMoves(s, a, p, spot);
    case FlushRxs(_, i) =>
    case PollCoproc(i) =>
      if spot == TxRing(i) {
        InParts(p, s.lanes[i].txRing, a.count);
      }
    case Forward(i) => ForwardMoves(s, a, p, spot);
  }

  lemma RouteMoves(s: State, a: Answer, p: Packet, spot: Spot)
    requires Inv(s) && FastDefined(s, a) && Shape(s) && At(s, p, spot) && s.fast.Route?
    ensures At(FastStep(s, a), p, Goes(s, Fast(a), p, spot))
  {
    if spot.Polled? {
      PolledMoves(s, a, p);
    } else if spot.RxStage? {
      StagedMoves(s, a, p, spot.i);
    } else {
      RouteLeaves(s, a, p, spot);
    }
  }

  lemma PolledMoves(s: State, a: Answer, p: Packet)
    requires Inv(s) && FastDefined(s, a) && Shape(s) && At(s, p, Polled)
    ensures At(FastStep(s, a), p, if p == s.burst[0] then FromPolled(s, p) else Polled)
  {
    var port := NextHop(s.cfg.table, s.burst[0].frame);
    if port < |s.lanes| {
      SizesOf(s, port);
    }
    assert s.burst == [s.burst[0]] + s.burst[1..];
  }

  lemma StagedMoves(s: State, a: Answer, p: Packet, i: nat)
    requires Inv(s) && FastDefined(s, a) && Shape(s) && At(s, p, RxStage(i)) && s.fast.Route?
    ensures At(FastStep(s, a), p, FromRxStage(s, Fast(a), i))
  {
    SizesOf(s, i);
  }

  lemma RouteLeaves(s: State, a: Answer, p: Packet, spot: Spot)
    requires FastDefined(s, a) && Shape(s) && At(s, p, spot) && s.fast.Route? && !spot.Polled? && !spot.RxStage?
    ensures At(FastStep(s, a), p, spot)
  {
  }

  lemma FlushPortMoves(s: State, a: Answer, p: Packet, spot: Spot)
    requires Inv(s) && FastDefined(s, a) && Shape(s) && At(s, p, spot) && s.fast.FlushPorts?
    ensures At(FastStep(s, a), p, Goes(s, Fast(a), p, spot))
  {
    var i := s.fast.i;
    if spot == PortStage(i) {
      InParts(p, s.lanes[i].portStage, a.count);
    }
  }

  lemma ForwardMoves(s: State, a: Answer, p: Packet, spot: Spot)
    requires Inv(s) && FastDefined(s, a) && Shape(s) && At(s, p, spot) && s.fast.Forward?
    ensures At(FastStep(s, a), p, Goes(s, Fast(a), p, spot))
  {
    if spot.Forwarded? {
      CarriedMoves(s, a, p);
    } else if spot.PortStage? {
      PortStagedMoves(s, a, p, spot.i);
    } else {
      ForwardLeaves(s, a, p, spot);
    }
  }

  lemma CarriedMoves(s: State, a: Answer, p: Packet)
    requires Inv(s) && FastDefined(s, a) && Shape(s) && s.fast.Forward? && At(s, p, Forwarded(s.fast.i))
    ensures var i := s.fast.i;
            At(FastStep(s, a), p, if p == s.burst[0] then FromForwarded(s, Fast(a), p, i) else Forwarded(i))
  {
    var i := s.fast.i;
    SizesOf(s, i);
    assert s.burst == [s.burst[0]] + s.burst[1..];
    var offered := s.lanes[i].portStage + [s.burst[0]];
    if |offered| == 32 && p in offered {
      InParts(p, offered, a.count);
    }
  }

  lemma PortStagedMoves(s: State, a: Answer, p: Packet, i: nat)
    requires Inv(s) && FastDefined(s, a) && Shape(s) && s.fast.Forward? && At(s, p, PortStage(i))
    ensures At(FastStep(s, a), p, FromPortStage(s, Fast(a), p, i))
  {
    SizesOf(s, i);
    if s.burst != [] && |s.lanes[i].portStage| + 1 == 32 && i == s.fast.i {
      InParts(p, s.lanes[i].portStage + [s.burst[0]], a.count);
    }
  }

  lemma ForwardLeaves(s: State, a: Answer, p: Packet, spot: Spot)
    requires FastDefined(s, a) && Shape(s) && At(s, p, spot) && s.fast.Forward?
    requires !spot.Forwarded? && !spot.PortStage?
    ensures At(FastStep(s, a), p, spot)
  {
  }

  lemma CoprocMoves(s: State, i: nat, count: nat, p: Packet, spot: Spot)
    requires Inv(s) && CoprocDefined(s, i, count) && Shape(s) && At(s, p, spot)
    ensures At(CoprocStep(s, i, count), p, Goes(s, Coproc(i, count), p, spot))
  {
    if spot == RxRing(i) || spot == InCoproc(i) || spot == TxStage(i) {
      OwnLaneMoves(s, i, count, p, spot);
    }
  }

  lemma OwnLaneMoves(s: State, i: nat, count: nat, p: Packet, spot: Spot)
    requires Inv(s) && CoprocDefined(s, i, count) && Shape(s) && At(s, p, spot)
    requires spot == RxRing(i) || spot == InCoproc(i) || spot == TxStage(i)
    ensures At(CoprocStep(s, i, count), p, Goes(s, Coproc(i, count), p, spot))
  {
    SizesOf(s, i);
    var l := s.lanes[i];
    match l.coproc
    case Poll =>
      if spot == RxRing(i) {
        InParts(p, l.rxRing, count);
      }
    case Process =>
      if l.burst != [] {
        assert l.burst == [l.burst[0]] + l.burst[1..];
      }
    case FlushTx =>
  }

  /** Every step of every thread takes every packet where the rules say. */
  lemma StepMoves(s: State, a: Action, p: Packet, spot: Spot)
    requires Inv(s) && Shape(s) && Defined(s, a) && At(s, p, spot)
    ensures At(Step(s, a), p, Goes(s, a, p, spot))
  {
    match a
    case Fast(answer) => FastMoves(s, answer, p, spot);
    case Coproc(i, count) => CoprocMoves(s, i, count, p, spot);
  }

  /** The frames of a poll are packets that wait to be routed. */
  lemma PolledArrives(s: State, a: Answer, j: nat)
    requires Inv(s) && FastDefined(s, a) && s.fast.PollPort? && j < |a.frames|
    ensures var p := Packet(|s.received| + j, a.frames[j]);
            p in FastStep(s, a).received && At(FastStep(s, a), p, Polled)
  {
    var ps := Arrive(|s.received|, a.frames);
    assert ps[j] == Packet(|s.received| + j, a.frames[j]);
  }

  // ---------------------------------------------------------------- why packets are freed

  /** Everything that is not routed anywhere, refused, or more than a ring or port has room for. */
  ghost predicate Reason(s: State, a: Action, p: Packet)
    requires Shape(s) && Defined(s, a)
  {
    || NoEgressPort(s, a, p)
    || Refused(s, a, p)
    || (exists i: nat :: i < |s.lanes| && RingTooFull(s, a, p, i))
    || (exists i: nat :: i < |s.lanes| && BeyondThePort(s, a, p, i))
  }

  ghost predicate NoEgressPort(s: State, a: Action, p: Packet)
    requires Shape(s)
  {
    a.Fast? && s.fast.Route? && s.burst != [] && p == s.burst[0] && NextHop(s.cfg.table, p.frame) == UNKNOWN_PORT
  }

  ghost predicate Refused(s: State, a: Action, p: Packet) {
    a.Coproc? && Processes(s, a, a.i) && p == s.lanes[a.i].burst[0] && !s.cfg.accepts(p)
  }

  /** A bulk, complete with p, does not fit its ring. */
  ghost predicate RingTooFull(s: State, a: Action, p: Packet, i: nat)
    requires Shape(s) && i < |s.lanes|
  {
    var l := s.lanes[i];
    || (&& Routes(s, a, i) && p in l.rxStage + [s.burst[0]] && |l.rxStage| == 31 && |l.rxRing| + 32 > s.cfg.capacity)
    || (&& a.Fast? && s.fast.FlushRxs? && s.fast.i == i && p in l.rxStage && |l.rxRing| + |l.rxStage| > s.cfg.capacity)
    || (&& Processes(s, a, i) && p in l.txStage + [l.burst[0]] && |l.txStage| == 31 && |l.txRing| + 32 > s.cfg.capacity)
    || (&& a.Coproc? && a.i == i && l.coproc.FlushTx? && p in l.txStage && |l.txRing| + |l.txStage| > s.cfg.capacity)
  }

  /** The port was offered p and took fewer packets. */
  ghost predicate BeyondThePort(s: State, a: Action, p: Packet, i: nat)
    requires Shape(s) && Defined(s, a) && i < |s.lanes|
  {
    var l := s.lanes[i];
    && a.Fast? && s.fast.i == i
    && (|| (s.fast.FlushPorts? && p in l.portStage && p !in l.portStage[..a.answer.count])
        || (&& s.fast.Forward? && s.burst != [] && |l.portStage| == 31 && p in l.portStage + [s.burst[0]]
            && p !in (l.portStage + [s.burst[0]])[..a.answer.count]))
  }

  lemma GoesFreedForAReason(s: State, a: Action, p: Packet, spot: Spot)
    requires Inv(s) && Shape(s) && Defined(s, a) && At(s, p, spot) && !spot.Freed? && Goes(s, a, p, spot) == Freed
    ensures Reason(s, a, p)
  {
    match spot
    case Polled =>
      var port := NextHop(s.cfg.table, p.frame);
      if port != UNKNOWN_PORT {
        SizesOf(s, port);
        assert RingTooFull(s, a, p, port);
      }
    case RxStage(i) => assert RingTooFull(s, a, p, i);
    case InCoproc(i) =>
      SizesOf(s, i);
      if s.cfg.accepts(p) {
        assert RingTooFull(s, a, p, i);
      }
    case TxStage(i) => assert RingTooFull(s, a, p, i);
    case Forwarded(i) =>
      SizesOf(s, i);
      assert BeyondThePort(s, a, p, i);
    case PortStage(i) => assert BeyondThePort(s, a, p, i);
    case _ =>
  }

  // ---------------------------------------------------------------- every packet is in exactly one spot

  ghost function Holding(s: State, spot: Spot): seq<Packet> {
    match spot
    case Polled => if s.fast.Route? then s.burst else []
    case Forwarded(i) => if s.fast == Forward(i) then s.burst else []
    case Freed => s.freed
    case Leaked => s.leaked
    case _ => if spot.i < |s.lanes| then InLane(s.lanes[spot.i], spot) else []
  }

  ghost function InLane(l: Lane, spot: Spot): seq<Packet> {
    match spot
    case RxStage(_) => l.rxStage
    case RxRing(_) => l.rxRing
    case InCoproc(_) => l.burst
    case TxStage(_) => l.txStage
    case TxRing(_) => l.txRing
    case PortStage(_) => l.portStage
    case Delivered(_) => l.delivered
    case _ => []
  }

  predicate IsLane(spot: Spot) {
    !spot.Polled? && !spot.Forwarded? && !spot.Freed? && !spot.Leaked?
  }

  lemma AtIsHolding(s: State, p: Packet, spot: Spot)
    ensures At(s, p, spot) <==> p in Holding(s, spot)
  {
  }

  lemma BagCounts(l: Lane, p: Packet)
    ensures Bag(l)[p] == multiset(l.rxStage)[p] + multiset(l.rxRing)[p] + multiset(l.burst)[p] + multiset(l.txStage)[p]
                         + multiset(l.txRing)[p] + multiset(l.portStage)[p] + multiset(l.delivered)[p]
  {
  }

  lemma {:induction false} UnionAtLeast(bags: seq<multiset<Packet>>, i: nat, j: nat, p: Packet)
    requires i <= j < |bags|
    ensures Union(bags)[p] >= bags[j][p]
    ensures i != j ==> Union(bags)[p] >= bags[i][p] + bags[j][p]
  {
    var n := |bags| - 1;
    assert Union(bags)[p] == Union(bags[..n])[p] + bags[n][p];
    if j < n {
      UnionAtLeast(bags[..n], i, j, p);
    } else if i < n {
      UnionAtLeast(bags[..n], i, i, p);
    }
  }

  lemma {:induction false} UnionHas(bags: seq<multiset<Packet>>, p: Packet) returns (i: nat)
    requires Union(bags)[p] > 0
    ensures i < |bags| && bags[i][p] > 0
  {
    var n := |bags| - 1;
    assert Union(bags)[p] == Union(bags[..n])[p] + bags[n][p];
    if bags[n][p] > 0 {
      i := n;
    } else {
      i := UnionHas(bags[..n], p);
    }
  }

  lemma LanesAtLeast(s: State, i: nat, j: nat, p: Packet)
    requires i < |s.lanes| && j < |s.lanes|
    ensures Bags(s.lanes)[p] >= Bag(s.lanes[j])[p]
    ensures i != j ==> Bags(s.lanes)[p] >= Bag(s.lanes[i])[p] + Bag(s.lanes[j])[p]
  {
    if i <= j {
      UnionAtLeast(BagOfEach(s.lanes), i, j, p);
    } else {
      UnionAtLeast(BagOfEach(s.lanes), j, i, p);
      UnionAtLeast(BagOfEach(s.lanes), j, j, p);
    }
  }

  lemma LaneCounts(l: Lane, p: Packet, x: Spot, y: Spot)
    requires IsLane(x) && IsLane(y) && x.i == y.i && p in InLane(l, x)
    ensures Bag(l)[p] >= 1
    ensures x != y && p in InLane(l, y) ==> Bag(l)[p] >= 2
  {
    BagCounts(l, p);
  }

  lemma TwoInLanes(s: State, p: Packet, x: Spot, y: Spot)
    requires At(s, p, x) && At(s, p, y) && x != y && IsLane(x) && IsLane(y)
    ensures Bags(s.lanes)[p] >= 2
  {
    AtIsHolding(s, p, x);
    AtIsHolding(s, p, y);
    LanesAtLeast(s, x.i, y.i, p);
    LaneCounts(s.lanes[x.i], p, x, x);
    LaneCounts(s.lanes[y.i], p, y, y);
    if x.i == y.i {
      LaneCounts(s.lanes[x.i], p, x, y);
    }
  }

  lemma OneInLanes(s: State, p: Packet, x: Spot)
    requires At(s, p, x) && IsLane(x)
    ensures Bags(s.lanes)[p] >= 1
  {
    AtIsHolding(s, p, x);
    LanesAtLeast(s, x.i, x.i, p);
    LaneCounts(s.lanes[x.i], p, x, x);
  }

  ghost function Elsewhere(s: State, p: Packet): nat {
    multiset(s.burst)[p] + multiset(s.freed)[p] + multiset(s.leaked)[p]
  }

  lemma OutsideLanes(s: State, p: Packet, x: Spot, y: Spot)
    requires At(s, p, x) && !IsLane(x)
    ensures Elsewhere(s, p) >= 1
    ensures At(s, p, y) && !IsLane(y) && x != y ==> Elsewhere(s, p) >= 2
  {
  }

  /** A packet that is in two spots is in two places. */
  lemma TwoSpotsTwoPlaces(s: State, p: Packet, x: Spot, y: Spot)
    requires At(s, p, x) && At(s, p, y) && x != y
    ensures Places(s, p) >= 2
  {
    assert Places(s, p) == Elsewhere(s, p) + Bags(s.lanes)[p];
    if IsLane(x) && IsLane(y) {
      TwoInLanes(s, p, x, y);
    } else if IsLane(x) {
      OneInLanes(s, p, x);
      OutsideLanes(s, p, y, x);
    } else {
      OutsideLanes(s, p, x, y);
      if IsLane(y) {
        OneInLanes(s, p, y);
      }
    }
  }

  lemma LaneSpot(l: Lane, i: nat, p: Packet) returns (spot: Spot)
    requires Bag(l)[p] > 0
    ensures IsLane(spot) && spot.i == i && p in InLane(l, spot)
  {
    BagCounts(l, p);
    spot := if p in l.rxStage then RxStage(i) else if p in l.rxRing then RxRing(i)
            else if p in l.burst then InCoproc(i) else if p in l.txStage then TxStage(i)
            else if p in l.txRing then TxRing(i) else if p in l.portStage then PortStage(i) else Delivered(i);
  }

  lemma ReceivedHasPlace(s: State, p: Packet)
    requires Inv(s)
    ensures Places(s, p) == if p in s.received then 1 else 0
  {
    Aspects(s);
    NumberedOnce(s.received, p);
    ConservedPlaces(s, p);
  }

  lemma SomeSpot(s: State, p: Packet) returns (spot: Spot)
    requires Inv(s) && p in s.received
    ensures At(s, p, spot)
  {
    ReceivedHasPlace(s, p);
    Aspects(s);
    if p in s.burst {
      spot := if s.fast.Route? then Polled else Forwarded(s.fast.i);
    } else if p in s.freed {
      spot := Freed;
    } else if p in s.leaked {
      spot := Leaked;
    } else {
      var i := UnionHas(BagOfEach(s.lanes), p);
      spot := LaneSpot(s.lanes[i], i, p);
    }
  }

  /** In every run every packet is in exactly one spot. */
  lemma EveryPacketHasOneSpot(s: State, actions: seq<Action>, p: Packet) returns (spot: Spot)
    requires Initial(s) && Behaviour(s, actions) && p in Run(s, actions).received
    ensures forall x :: At(Run(s, actions), p, x) <==> x == spot
  {
    InitialKeeps(s);
    RunKeeps(s, actions);
    var s' := Run(s, actions);
    spot := SomeSpot(s', p);
    ReceivedHasPlace(s', p);
    forall x | x != spot
      ensures !At(s', p, x)
    {
      if At(s', p, x) {
        TwoSpotsTwoPlaces(s', p, x, spot);
      }
    }
  }

  // ---------------------------------------------------------------- every freed packet has a reason

  lemma StepKeeps(s: State, a: Action)
    requires Inv(s) && Defined(s, a)
    ensures Inv(Step(s, a))
  {
    match a
    case Fast(answer) => FastKeeps(s, answer);
    case Coproc(i, count) => CoprocKeeps(s, i, count);
  }

  /** A packet that the step receives is not freed by it. */
  lemma NewIsPolled(s: State, a: Action, p: Packet)
    requires Inv(s) && Defined(s, a) && p in Step(s, a).received && p !in s.received
    ensures At(Step(s, a), p, Polled)
  {
    Aspects(s);
  }

  lemma FreedForAReason(s: State, a: Action, p: Packet)
    requires Inv(s) && Shape(s) && Defined(s, a) && p in Step(s, a).freed && p !in s.freed
    ensures Reason(s, a, p)
  {
    var s' := Step(s, a);
    StepKeeps(s, a);
    ReceivedHasPlace(s', p);
    assert At(s', p, Freed);
    if p !in s.received {
      NewIsPolled(s, a, p);
      TwoSpotsTwoPlaces(s', p, Polled, Freed);
    } else {
      var spot := SomeSpot(s, p);
      StepMoves(s, a, p, spot);
      if Goes(s, a, p, spot) != Freed {
        TwoSpotsTwoPlaces(s', p, Goes(s, a, p, spot), Freed);
      }
      GoesFreedForAReason(s, a, p, spot);
    }
  }

  ghost predicate FreedAt(s: State, actions: seq<Action>, n: nat, p: Packet)
    requires Inv(s) && Behaviour(s, actions) && n < |actions|
  {
    PrefixRuns(s, actions, n);
    var s1 := Run(s, actions[..n]);
    Shape(s1) && Reason(s1, actions[n], p)
  }

  lemma {:induction false} PrefixRuns(s: State, actions: seq<Action>, n: nat)
    requires Inv(s) && Behaviour(s, actions) && n < |actions|
    ensures Behaviour(s, actions[..n])
    ensures Inv(Run(s, actions[..n])) && Shape(Run(s, actions[..n])) && Defined(Run(s, actions[..n]), actions[n])
    decreases n
  {
    if n > 0 {
      StepKeeps(s, actions[0]);
      PrefixRuns(Step(s, actions[0]), actions[1..], n - 1);
      assert actions[..n][1..] == actions[1..][..n - 1];
    } else {
      Aspects(s);
    }
  }

  lemma {:induction false} FreedInRun(s: State, actions: seq<Action>, p: Packet) returns (n: nat)
    requires Inv(s) && Behaviour(s, actions) && p in Run(s, actions).freed && p !in s.freed
    ensures n < |actions| && FreedAt(s, actions, n, p)
    decreases |actions|
  {
    var s1 := Step(s, actions[0]);
    StepKeeps(s, actions[0]);
    Aspects(s);
    if p in s1.freed {
      n := 0;
      FreedForAReason(s, actions[0], p);
      assert actions[..0] == [];
    } else {
      var m := FreedInRun(s1, actions[1..], p);
      n := m + 1;
      assert actions[..n][1..] == actions[1..][..m];
    }
  }

  /**
    In every run, whatever was freed was freed at some step because it had no egress port, was refused by
    the network function, was part of a bulk that did not fit its ring, or was more than the port took.
   */
  lemma EveryFreedHasAReason(s: State, actions: seq<Action>, p: Packet)
    requires Initial(s) && Behaviour(s, actions) && p in Run(s, actions).freed
    ensures Inv(s) && exists n :: 0 <= n < |actions| && FreedAt(s, actions, n, p)
  {
    InitialKeeps(s);
    var n := FreedInRun(s, actions, p);
  }
}
