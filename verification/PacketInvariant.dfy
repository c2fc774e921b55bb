/** What every step of the packet pipeline keeps, and what that means for whole runs. */
module PacketInvariant {
  import opened PacketSwitch

  // ---------------------------------------------------------------- order within a lane

  ghost predicate Increasing(ps: seq<Packet>) {
    forall a, b :: 0 <= a < b < |ps| ==> ps[a].id < ps[b].id
  }

  /** Packets that were received before `frontier` and are bound for port i, in the order of arrival. */
  ghost predicate Good(ps: seq<Packet>, cfg: Config, i: nat, received: seq<Packet>, frontier: nat)
    requires ConfigOk(cfg)
  {
    && Increasing(ps)
    && forall a :: 0 <= a < |ps| ==>
         && ps[a].id < frontier && ps[a].id < |received| && received[ps[a].id] == ps[a]
         && NextHop(cfg.table, ps[a].frame) == i
  }

  /** All packets of a lane, from the delivered ones back to the staging buffer of the fast path. */
  ghost function Chain(l: Lane, fwd: seq<Packet>): seq<Packet> {
    l.delivered + l.portStage + fwd + l.txRing + l.txStage + l.burst + l.rxRing + l.rxStage
  }

  ghost predicate All(ps: seq<Packet>, accepts: Packet -> bool) {
    forall a :: 0 <= a < |ps| ==> accepts(ps[a])
  }

  /** Everything on the way back from the coprocessor was accepted by it. */
  ghost predicate Accepted(l: Lane, fwd: seq<Packet>, accepts: Packet -> bool) {
    All(l.delivered, accepts) && All(l.portStage, accepts) && All(fwd, accepts)
    && All(l.txRing, accepts) && All(l.txStage, accepts)
  }

  lemma GoodDrop(a: seq<Packet>, b: seq<Packet>, c: seq<Packet>, cfg: Config, i: nat, received: seq<Packet>,
                 frontier: nat)
    requires ConfigOk(cfg) && Good(a + b + c, cfg, i, received, frontier)
    ensures Good(a + c, cfg, i, received, frontier)
  {
    var all, rest := a + b + c, a + c;
    assert forall k :: 0 <= k < |rest| ==> rest[k] == all[if k < |a| then k else k + |b|];
  }

  lemma GoodAppend(ps: seq<Packet>, p: Packet, cfg: Config, i: nat, received: seq<Packet>, frontier: nat)
    requires ConfigOk(cfg) && Good(ps, cfg, i, received, frontier)
    requires p.id == frontier < |received| && received[frontier] == p && NextHop(cfg.table, p.frame) == i
    ensures Good(ps + [p], cfg, i, received, frontier + 1)
  {
  }

  lemma GoodLater(ps: seq<Packet>, cfg: Config, i: nat, received: seq<Packet>, frontier: nat,
                  received': seq<Packet>, frontier': nat)
    requires ConfigOk(cfg) && Good(ps, cfg, i, received, frontier)
    requires received <= received' && frontier <= frontier'
    ensures Good(ps, cfg, i, received', frontier')
  {
  }

  // ---------------------------------------------------------------- the invariant of a lane

  ghost predicate Sizes(l: Lane, capacity: nat) {
    && |l.rxStage| < 32 && |l.txStage| < 32 && |l.portStage| < 32
    && |l.rxRing| <= capacity && |l.txRing| <= capacity
    && |l.burst| <= 32 && (!l.coproc.Process? ==> l.burst == [])
  }

  /** The counters of a lane account for every packet that was routed to it. */
  ghost predicate Balance(l: Lane, fwd: seq<Packet>) {
    && l.routed == l.nf.rxPackets + l.nf.rxDropped + |l.rxStage|
    && l.nf.rxPackets == l.nf.txPackets + l.nf.txDropped + l.rejected + |l.txStage| + |l.burst| + |l.rxRing|
    && l.nf.txPackets == l.port.txPackets + l.port.txDropped + |l.portStage| + |fwd| + |l.txRing|
    && l.port.txPackets == |l.delivered|
  }

  datatype LaneAspect = Bounds | Counters | Order | Verdicts

  ghost predicate LaneKeeps(l: Lane, fwd: seq<Packet>, cfg: Config, i: nat, received: seq<Packet>, frontier: nat,
                            a: LaneAspect)
    requires ConfigOk(cfg)
  {
    match a
    case Bounds => Sizes(l, cfg.capacity)
    case Counters => Balance(l, fwd)
    case Order => Good(Chain(l, fwd), cfg, i, received, frontier)
    case Verdicts => Accepted(l, fwd, cfg.accepts)
  }

  /** The invariant of a lane, one aspect at a time. `fwd` is what the fast path carries to the port. */
  ghost predicate LaneOk(l: Lane, fwd: seq<Packet>, cfg: Config, i: nat, received: seq<Packet>, frontier: nat) {
    && ConfigOk(cfg)
    && forall a :: LaneKeeps(l, fwd, cfg, i, received, frontier, a)
  }

  lemma LaneAspects(l: Lane, fwd: seq<Packet>, cfg: Config, i: nat, received: seq<Packet>, frontier: nat)
    requires ConfigOk(cfg)
    ensures LaneOk(l, fwd, cfg, i, received, frontier) <==>
            && Sizes(l, cfg.capacity) && Balance(l, fwd)
            && Good(Chain(l, fwd), cfg, i, received, frontier) && Accepted(l, fwd, cfg.accepts)
  {
    assert LaneKeeps(l, fwd, cfg, i, received, frontier, Bounds) <==> Sizes(l, cfg.capacity);
    assert LaneKeeps(l, fwd, cfg, i, received, frontier, Counters) <==> Balance(l, fwd);
    assert LaneKeeps(l, fwd, cfg, i, received, frontier, Order) <==> Good(Chain(l, fwd), cfg, i, received, frontier);
    assert LaneKeeps(l, fwd, cfg, i, received, frontier, Verdicts) <==> Accepted(l, fwd, cfg.accepts);
  }

  /** The packets of a lane, without regard to order. */
  ghost function Bag(l: Lane): multiset<Packet> {
    multiset(l.delivered) + multiset(l.portStage) + multiset(l.txRing) + multiset(l.txStage) + multiset(l.burst)
    + multiset(l.rxRing) + multiset(l.rxStage)
  }

  // A flush may find its staging buffer full, which no lane is between steps.

  ghost predicate LaneOkBut(l: Lane, fwd: seq<Packet>, cfg: Config, i: nat, received: seq<Packet>, frontier: nat) {
    && ConfigOk(cfg)
    && |l.rxStage| <= BURST && |l.txStage| <= BURST && |l.portStage| <= BURST
    && |l.rxRing| <= cfg.capacity && |l.txRing| <= cfg.capacity
    && |l.burst| <= BURST && (!l.coproc.Process? ==> l.burst == [])
    && Balance(l, fwd)
    && Good(Chain(l, fwd), cfg, i, received, frontier)
    && Accepted(l, fwd, cfg.accepts)
  }

  lemma FlushPortKeeps(l: Lane, sent: nat, fwd: seq<Packet>, cfg: Config, i: nat, received: seq<Packet>, frontier: nat)
    requires LaneOkBut(l, fwd, cfg, i, received, frontier) && sent <= |l.portStage|
    ensures var o := FlushPort(l, sent);
            LaneOkBut(o.lane, fwd, cfg, i, received, frontier) && o.lane.portStage == []
  {
    var o := FlushPort(l, sent);
    var a := l.delivered + l.portStage[..sent];
    var b := l.portStage[sent..];
    var c := fwd + l.txRing + l.txStage + l.burst + l.rxRing + l.rxStage;
    assert l.portStage == l.portStage[..sent] + b;
    assert a + b + c == Chain(l, fwd);
    assert a + c == Chain(o.lane, fwd);
    GoodDrop(a, b, c, cfg, i, received, frontier);
  }

  lemma FlushRxKeeps(l: Lane, fwd: seq<Packet>, cfg: Config, i: nat, received: seq<Packet>, frontier: nat)
    requires LaneOkBut(l, fwd, cfg, i, received, frontier)
    ensures var o := FlushRx(l, cfg.capacity);
            LaneOkBut(o.lane, fwd, cfg, i, received, frontier) && o.lane.rxStage == []
  {
    var o := FlushRx(l, cfg.capacity);
    var a := l.delivered + l.portStage + fwd + l.txRing + l.txStage + l.burst + l.rxRing;
    if |l.rxRing| + |l.rxStage| <= cfg.capacity {
      assert Chain(o.lane, fwd) == Chain(l, fwd);
    } else {
      assert a + l.rxStage + [] == Chain(l, fwd);
      assert a + [] == Chain(o.lane, fwd);
      GoodDrop(a, l.rxStage, [], cfg, i, received, frontier);
    }
  }

  lemma FlushTxChain(l: Lane, capacity: nat, fwd: seq<Packet>)
    ensures var o := FlushTxStage(l, capacity);
            var a := l.delivered + l.portStage + fwd + l.txRing;
            var c := l.burst + l.rxRing + l.rxStage;
            && Chain(l, fwd) == a + l.txStage + c
            && Chain(o.lane, fwd) == if |l.txRing| + |l.txStage| <= capacity then Chain(l, fwd) else a + c
  {
    var o := FlushTxStage(l, capacity);
    assert l.txRing + l.txStage + [] == l.txRing + l.txStage;
  }

  lemma FlushTxKeeps(l: Lane, fwd: seq<Packet>, cfg: Config, i: nat, received: seq<Packet>, frontier: nat)
    requires LaneOkBut(l, fwd, cfg, i, received, frontier)
    ensures var o := FlushTxStage(l, cfg.capacity);
            LaneOkBut(o.lane, fwd, cfg, i, received, frontier) && o.lane.txStage == []
  {
    FlushTxChain(l, cfg.capacity, fwd);
    if |l.txRing| + |l.txStage| > cfg.capacity {
      GoodDrop(l.delivered + l.portStage + fwd + l.txRing, l.txStage, l.burst + l.rxRing + l.rxStage,
               cfg, i, received, frontier);
    }
  }

  /** A lane with room in its staging buffers. */
  lemma LaneOkIff(l: Lane, fwd: seq<Packet>, cfg: Config, i: nat, received: seq<Packet>, frontier: nat)
    requires ConfigOk(cfg)
    ensures LaneOk(l, fwd, cfg, i, received, frontier) <==>
            && LaneOkBut(l, fwd, cfg, i, received, frontier)
            && |l.rxStage| < BURST && |l.txStage| < BURST && |l.portStage| < BURST
  {
    LaneAspects(l, fwd, cfg, i, received, frontier);
  }

  // No packet appears or disappears.

  lemma FlushPortBag(l: Lane, sent: nat)
    requires sent <= |l.portStage|
    ensures Bag(FlushPort(l, sent).lane) + multiset(FlushPort(l, sent).freed) == Bag(l)
  {
    assert l.portStage == l.portStage[..sent] + l.portStage[sent..];
  }

  lemma FlushRxBag(l: Lane, capacity: nat)
    ensures Bag(FlushRx(l, capacity).lane) + multiset(FlushRx(l, capacity).freed) == Bag(l)
  {
  }

  lemma FlushTxBag(l: Lane, capacity: nat)
    ensures Bag(FlushTxStage(l, capacity).lane) + multiset(FlushTxStage(l, capacity).freed) == Bag(l)
  {
  }

  lemma EnqueueRxBag(l: Lane, p: Packet, capacity: nat)
    ensures var o := EnqueueRx(l, p, capacity);
            Bag(o.lane) + multiset(o.freed) == Bag(l) + multiset{p}
  {
    FlushRxBag(l.(rxStage := l.rxStage + [p], routed := l.routed + 1), capacity);
  }

  lemma EnqueueTxBag(l: Lane, p: Packet, capacity: nat)
    ensures var o := EnqueueTx(l, p, capacity);
            Bag(o.lane) + multiset(o.freed) == Bag(l) + multiset{p}
  {
    FlushTxBag(l.(txStage := l.txStage + [p]), capacity);
  }

  lemma EnqueuePortBag(l: Lane, p: Packet, sent: nat)
    requires |l.portStage| < BURST && sent <= BURST
    ensures var o := EnqueuePort(l, p, sent);
            Bag(o.lane) + multiset(o.freed) == Bag(l) + multiset{p}
  {
    var l1 := l.(portStage := l.portStage + [p]);
    if |l1.portStage| == BURST {
      FlushPortBag(l1, sent);
    }
  }

  // ---------------------------------------------------------------- what a step does to a lane

  lemma LaneFlushPort(l: Lane, sent: nat, fwd: seq<Packet>, cfg: Config, i: nat, received: seq<Packet>, frontier: nat)
    requires LaneOk(l, fwd, cfg, i, received, frontier) && sent <= |l.portStage|
    ensures LaneOk(FlushPort(l, sent).lane, fwd, cfg, i, received, frontier)
  {
    LaneOkIff(l, fwd, cfg, i, received, frontier);
    FlushPortKeeps(l, sent, fwd, cfg, i, received, frontier);
    LaneOkIff(FlushPort(l, sent).lane, fwd, cfg, i, received, frontier);
  }

  lemma LaneFlushRx(l: Lane, fwd: seq<Packet>, cfg: Config, i: nat, received: seq<Packet>, frontier: nat)
    requires LaneOk(l, fwd, cfg, i, received, frontier)
    ensures LaneOk(FlushRx(l, cfg.capacity).lane, fwd, cfg, i, received, frontier)
  {
    LaneOkIff(l, fwd, cfg, i, received, frontier);
    FlushRxKeeps(l, fwd, cfg, i, received, frontier);
    LaneOkIff(FlushRx(l, cfg.capacity).lane, fwd, cfg, i, received, frontier);
  }

  lemma LaneFlushTx(l: Lane, fwd: seq<Packet>, cfg: Config, i: nat, received: seq<Packet>, frontier: nat)
    requires LaneOk(l, fwd, cfg, i, received, frontier)
    ensures LaneOk(FlushTxStage(l, cfg.capacity).lane, fwd, cfg, i, received, frontier)
  {
    LaneOkIff(l, fwd, cfg, i, received, frontier);
    FlushTxKeeps(l, fwd, cfg, i, received, frontier);
    LaneOkIff(FlushTxStage(l, cfg.capacity).lane, fwd, cfg, i, received, frontier);
  }

  /** Later packets do not disturb a lane. */
  lemma LaneLater(l: Lane, fwd: seq<Packet>, cfg: Config, i: nat, received: seq<Packet>, frontier: nat,
                  received': seq<Packet>, frontier': nat)
    requires LaneOk(l, fwd, cfg, i, received, frontier)
    requires received <= received' && frontier <= frontier'
    ensures LaneOk(l, fwd, cfg, i, received', frontier')
  {
    LaneAspects(l, fwd, cfg, i, received, frontier);
    GoodLater(Chain(l, fwd), cfg, i, received, frontier, received', frontier');
    LaneAspects(l, fwd, cfg, i, received', frontier');
  }

  /** Neither do the receive counters of the port and the coprocessor's program counter. */
  lemma LaneRelabelled(l: Lane, l': Lane, fwd: seq<Packet>, cfg: Config, i: nat, received: seq<Packet>, frontier: nat)
    requires LaneOk(l, fwd, cfg, i, received, frontier)
    requires l' == l.(port := l.port.(rxPackets := l'.port.rxPackets, parseErr := l'.port.parseErr), coproc := l'.coproc)
    requires l.burst == [] || l'.coproc == l.coproc
    ensures LaneOk(l', fwd, cfg, i, received, frontier)
  {
    LaneAspects(l, fwd, cfg, i, received, frontier);
    LaneAspects(l', fwd, cfg, i, received, frontier);
  }

  lemma RxStageIsLast(l: Lane, p: Packet, fwd: seq<Packet>)
    ensures Chain(l.(rxStage := l.rxStage + [p], routed := l.routed + 1), fwd) == Chain(l, fwd) + [p]
  {
    var a := l.delivered + l.portStage + fwd + l.txRing + l.txStage + l.burst + l.rxRing;
    assert a + (l.rxStage + [p]) == a + l.rxStage + [p];
  }

  lemma StagedKeeps(l: Lane, p: Packet, fwd: seq<Packet>, cfg: Config, i: nat, received: seq<Packet>, frontier: nat)
    requires LaneOk(l, fwd, cfg, i, received, frontier)
    requires p.id == frontier < |received| && received[frontier] == p && NextHop(cfg.table, p.frame) == i
    ensures var l1 := l.(rxStage := l.rxStage + [p], routed := l.routed + 1);
            LaneOkBut(l1, fwd, cfg, i, received, frontier + 1) && |l1.portStage| < BURST && |l1.txStage| < BURST
  {
    LaneOkIff(l, fwd, cfg, i, received, frontier);
    GoodAppend(Chain(l, fwd), p, cfg, i, received, frontier);
    RxStageIsLast(l, p, fwd);
  }

  lemma EnqueueRxKeeps(l: Lane, p: Packet, fwd: seq<Packet>, cfg: Config, i: nat, received: seq<Packet>, frontier: nat)
    requires LaneOk(l, fwd, cfg, i, received, frontier)
    requires p.id == frontier < |received| && received[frontier] == p && NextHop(cfg.table, p.frame) == i
    ensures LaneOk(EnqueueRx(l, p, cfg.capacity).lane, fwd, cfg, i, received, frontier + 1)
  {
    var l1 := l.(rxStage := l.rxStage + [p], routed := l.routed + 1);
    StagedKeeps(l, p, fwd, cfg, i, received, frontier);
    if |l1.rxStage| == BURST {
      FlushRxKeeps(l1, fwd, cfg, i, received, frontier + 1);
    }
    LaneOkIff(EnqueueRx(l, p, cfg.capacity).lane, fwd, cfg, i, received, frontier + 1);
  }

  lemma EnqueueTxKeeps(l: Lane, fwd: seq<Packet>, cfg: Config, i: nat, received: seq<Packet>, frontier: nat)
    requires LaneOk(l, fwd, cfg, i, received, frontier)
    requires l.coproc.Process? && l.burst != [] && cfg.accepts(l.burst[0])
    ensures LaneOk(EnqueueTx(l.(burst := l.burst[1..]), l.burst[0], cfg.capacity).lane, fwd, cfg, i, received, frontier)
  {
    var p := l.burst[0];
    var l1 := l.(burst := l.burst[1..], txStage := l.txStage + [p]);
    LaneOkIff(l, fwd, cfg, i, received, frontier);
    assert l.burst == [p] + l.burst[1..];
    assert Chain(l1, fwd) == Chain(l, fwd);
    if |l1.txStage| == BURST {
      FlushTxKeeps(l1, fwd, cfg, i, received, frontier);
    }
    LaneOkIff(EnqueueTx(l.(burst := l.burst[1..]), p, cfg.capacity).lane, fwd, cfg, i, received, frontier);
  }

  lemma RejectKeeps(l: Lane, fwd: seq<Packet>, cfg: Config, i: nat, received: seq<Packet>, frontier: nat)
    requires LaneOk(l, fwd, cfg, i, received, frontier)
    requires l.coproc.Process? && l.burst != []
    ensures LaneOk(l.(burst := l.burst[1..], rejected := l.rejected + 1), fwd, cfg, i, received, frontier)
  {
    var p := l.burst[0];
    var l' := l.(burst := l.burst[1..], rejected := l.rejected + 1);
    var a := l.delivered + l.portStage + fwd + l.txRing + l.txStage;
    var c := l.burst[1..] + l.rxRing + l.rxStage;
    LaneOkIff(l, fwd, cfg, i, received, frontier);
    assert l.burst == [p] + l.burst[1..];
    assert a + [p] + c == Chain(l, fwd);
    assert a + c == Chain(l', fwd);
    GoodDrop(a, [p], c, cfg, i, received, frontier);
    LaneOkIff(l', fwd, cfg, i, received, frontier);
  }

  lemma CoprocPollKeeps(l: Lane, count: nat, fwd: seq<Packet>, cfg: Config, i: nat, received: seq<Packet>, frontier: nat)
    requires LaneOk(l, fwd, cfg, i, received, frontier)
    requires l.coproc.Poll? && count <= BURST && count <= |l.rxRing|
    ensures LaneOk(l.(burst := l.rxRing[..count], rxRing := l.rxRing[count..], coproc := Process),
                   fwd, cfg, i, received, frontier)
  {
    var l' := l.(burst := l.rxRing[..count], rxRing := l.rxRing[count..], coproc := Process);
    LaneAspects(l, fwd, cfg, i, received, frontier);
    assert l.rxRing == l.rxRing[..count] + l.rxRing[count..];
    assert Chain(l', fwd) == Chain(l, fwd);
    LaneAspects(l', fwd, cfg, i, received, frontier);
  }

  lemma FastPollKeeps(l: Lane, count: nat, cfg: Config, i: nat, received: seq<Packet>, frontier: nat)
    requires LaneOk(l, [], cfg, i, received, frontier) && count <= |l.txRing|
    ensures LaneOk(l.(txRing := l.txRing[count..]), l.txRing[..count], cfg, i, received, frontier)
  {
    var l' := l.(txRing := l.txRing[count..]);
    LaneAspects(l, [], cfg, i, received, frontier);
    assert l.txRing == l.txRing[..count] + l.txRing[count..];
    assert Chain(l', l.txRing[..count]) == Chain(l, []);
    LaneAspects(l', l.txRing[..count], cfg, i, received, frontier);
  }

  lemma ForwardKeeps(l: Lane, sent: nat, fwd: seq<Packet>, cfg: Config, i: nat, received: seq<Packet>, frontier: nat)
    requires LaneOk(l, fwd, cfg, i, received, frontier) && fwd != [] && sent <= BURST && |l.portStage| < BURST
    ensures LaneOk(EnqueuePort(l, fwd[0], sent).lane, fwd[1..], cfg, i, received, frontier)
  {
    var p := fwd[0];
    var l1 := l.(portStage := l.portStage + [p]);
    LaneOkIff(l, fwd, cfg, i, received, frontier);
    assert fwd == [p] + fwd[1..];
    assert Chain(l1, fwd[1..]) == Chain(l, fwd);
    if |l1.portStage| == BURST {
      FlushPortKeeps(l1, sent, fwd[1..], cfg, i, received, frontier);
    }
    LaneOkIff(EnqueuePort(l, p, sent).lane, fwd[1..], cfg, i, received, frontier);
  }

  // ---------------------------------------------------------------- the invariant of the pipeline

  /** The packets that the fast path is carrying from coprocessor i to port i. */
  ghost function Carried(s: State, i: nat): seq<Packet> {
    if s.fast == Forward(i) then s.burst else []
  }

  /** Packets with a smaller number have been routed. */
  ghost function Frontier(s: State): int {
    if s.fast.Route? then |s.received| - |s.burst| else |s.received|
  }

  ghost predicate Shape(s: State) {
    && ConfigOk(s.cfg) && |s.lanes| == s.cfg.ports
    && s.fast.i < s.cfg.polled
    && |s.burst| <= BURST
    && (!s.fast.Route? && !s.fast.Forward? ==> s.burst == [])
    && (forall j :: 0 <= j < |s.received| ==> s.received[j].id == j)
    && (s.fast.Route? ==> |s.burst| <= |s.received| && s.burst == s.received[|s.received| - |s.burst|..])
  }

  ghost predicate LaneInv(s: State, i: nat) {
    && i < |s.lanes| && Frontier(s) >= 0
    && LaneOk(s.lanes[i], Carried(s, i), s.cfg, i, s.received, Frontier(s))
  }

  ghost predicate LanesOk(s: State) {
    forall i {:trigger LaneInv(s, i)} :: 0 <= i < |s.lanes| ==> LaneInv(s, i)
  }

  ghost function Union(bags: seq<multiset<Packet>>): multiset<Packet> {
    if bags == [] then multiset{} else Union(bags[..|bags| - 1]) + bags[|bags| - 1]
  }

  /** All packets in lanes. */
  ghost function Bags(lanes: seq<Lane>): multiset<Packet> {
    Union(BagOfEach(lanes))
  }

  ghost function BagOfEach(lanes: seq<Lane>): (bags: seq<multiset<Packet>>)
    ensures |bags| == |lanes|
    ensures forall i :: 0 <= i < |lanes| ==> bags[i] == Bag(lanes[i])
  {
    seq(|lanes|, i requires 0 <= i < |lanes| => Bag(lanes[i]))
  }

  /** Every received packet is in exactly one place: with the fast path, in a lane, freed or leaked. */
  ghost predicate Conserved(s: State) {
    multiset(s.received) == multiset(s.burst) + Bags(s.lanes) + multiset(s.freed) + multiset(s.leaked)
  }

  function TotalRx(lanes: seq<Lane>): nat {
    if lanes == [] then 0 else TotalRx(lanes[..|lanes| - 1]) + lanes[|lanes| - 1].port.rxPackets
  }

  function TotalRouted(lanes: seq<Lane>): nat {
    if lanes == [] then 0
    else TotalRouted(lanes[..|lanes| - 1]) + lanes[|lanes| - 1].routed + lanes[|lanes| - 1].port.parseErr
  }

  /** The receive counters of the ports account for every packet. */
  ghost predicate Counted(s: State) {
    && TotalRx(s.lanes) == |s.received|
    && TotalRouted(s.lanes) + |s.leaked| == Frontier(s)
  }

  datatype Aspect = Form | Lanes | Conservation | Counting

  ghost predicate Keeps(s: State, a: Aspect) {
    match a
    case Form => Shape(s)
    case Lanes => LanesOk(s)
    case Conservation => Conserved(s)
    case Counting => Counted(s)
  }

  /** The invariant of the pipeline, one aspect at a time. */
  ghost predicate Inv(s: State) {
    forall a :: Keeps(s, a)
  }

  lemma Aspects(s: State)
    ensures Inv(s) <==> Shape(s) && LanesOk(s) && Conserved(s) && Counted(s)
  {
    if Inv(s) {
      assert Keeps(s, Form) && Keeps(s, Lanes) && Keeps(s, Conservation) && Keeps(s, Counting);
    } else {
      var a :| !Keeps(s, a);
      match a {
        case Form =>
        case Lanes =>
        case Conservation =>
        case Counting =>
      }
    }
  }

  lemma {:induction false} UnionUpdate(bags: seq<multiset<Packet>>, i: nat, bag: multiset<Packet>)
    returns (rest: multiset<Packet>)
    requires i < |bags|
    ensures Union(bags) == rest + bags[i]
    ensures Union(bags[i := bag]) == rest + bag
  {
    var n := |bags| - 1;
    var updated := bags[i := bag];
    if i == n {
      assert updated[..n] == bags[..n];
      rest := Union(bags[..n]);
    } else {
      var rest0 := UnionUpdate(bags[..n], i, bag);
      assert updated[..n] == bags[..n][i := bag];
      rest := rest0 + bags[n];
    }
  }

  lemma BagsUpdate(lanes: seq<Lane>, i: nat, l: Lane) returns (rest: multiset<Packet>)
    requires i < |lanes|
    ensures Bags(lanes) == rest + Bag(lanes[i])
    ensures Bags(lanes[i := l]) == rest + Bag(l)
  {
    rest := UnionUpdate(BagOfEach(lanes), i, Bag(l));
    assert BagOfEach(lanes)[i := Bag(l)] == BagOfEach(lanes[i := l]);
  }

  lemma {:induction false} TotalsUpdate(lanes: seq<Lane>, i: nat, l: Lane)
    requires i < |lanes|
    ensures TotalRx(lanes[i := l]) == TotalRx(lanes) - lanes[i].port.rxPackets + l.port.rxPackets
    ensures TotalRouted(lanes[i := l]) ==
            TotalRouted(lanes) - lanes[i].routed - lanes[i].port.parseErr + l.routed + l.port.parseErr
  {
    var n := |lanes| - 1;
    var updated := lanes[i := l];
    if i == n {
      assert updated[..n] == lanes[..n];
    } else {
      TotalsUpdate(lanes[..n], i, l);
      assert updated[..n] == lanes[..n][i := l];
    }
  }

  /** The lanes that a step does not touch stay as they are, while time may move on. */
  lemma OtherLane(s: State, s': State, i: nat)
    requires LanesOk(s) && i < |s.lanes| && i < |s'.lanes| && s'.lanes[i] == s.lanes[i]
    requires s'.cfg == s.cfg && Carried(s', i) == Carried(s, i)
    requires s.received <= s'.received && Frontier(s) <= Frontier(s')
    ensures LaneInv(s', i)
  {
    assert LaneInv(s, i);
    LaneLater(s.lanes[i], Carried(s, i), s.cfg, i, s.received, Frontier(s), s'.received, Frontier(s'));
  }

  /** A step that works on lane i only. */
  lemma LanesPut(s: State, s': State, i: nat, l: Lane)
    requires LanesOk(s) && i < |s.lanes| && s'.lanes == s.lanes[i := l]
    requires s'.cfg == s.cfg && s.received <= s'.received && Frontier(s) <= Frontier(s')
    requires forall j :: 0 <= j < |s.lanes| && j != i ==> Carried(s', j) == Carried(s, j)
    requires LaneInv(s', i)
    ensures LanesOk(s')
  {
    forall j | 0 <= j < |s'.lanes|
      ensures LaneInv(s', j)
    {
      if j != i { OtherLane(s, s', j); }
    }
  }

  lemma Exchange(all: multiset<Packet>, burst: multiset<Packet>, rest: multiset<Packet>, bag: multiset<Packet>,
                 freed: multiset<Packet>, leaked: multiset<Packet>,
                 burst': multiset<Packet>, bag': multiset<Packet>, more: multiset<Packet>)
    requires all == burst + (rest + bag) + freed + leaked
    requires burst' + bag' + more == burst + bag
    ensures all == burst' + (rest + bag') + (freed + more) + leaked
  {
    assert burst + (rest + bag) + freed + leaked == (burst + bag) + rest + freed + leaked;
    assert burst' + (rest + bag') + (freed + more) + leaked == (burst' + bag' + more) + rest + freed + leaked;
  }

  lemma ConservedPut(s: State, s': State, i: nat, o: Outcome)
    requires Conserved(s) && i < |s.lanes|
    requires s'.lanes == s.lanes[i := o.lane] && s'.freed == s.freed + o.freed
    requires s'.received == s.received && s'.leaked == s.leaked
    requires multiset(s'.burst) + Bag(o.lane) + multiset(o.freed) == multiset(s.burst) + Bag(s.lanes[i])
    ensures Conserved(s')
  {
    var rest := BagsUpdate(s.lanes, i, o.lane);
    Exchange(multiset(s.received), multiset(s.burst), rest, Bag(s.lanes[i]), multiset(s.freed), multiset(s.leaked),
             multiset(s'.burst), Bag(o.lane), multiset(o.freed));
  }

  /** One packet moves from the head of the burst into a lane. */
  lemma MoveHead(burst: seq<Packet>, bag: multiset<Packet>, bag': multiset<Packet>, more: multiset<Packet>)
    requires burst != [] && bag' + more == bag + multiset{burst[0]}
    ensures multiset(burst[1..]) + bag' + more == multiset(burst) + bag
  {
    assert burst == [burst[0]] + burst[1..];
    assert multiset(burst) == multiset{burst[0]} + multiset(burst[1..]);
    assert multiset(burst[1..]) + bag' + more == multiset(burst[1..]) + (bag' + more);
  }

  lemma CountedPut(s: State, s': State, i: nat, l: Lane)
    requires Counted(s) && i < |s.lanes| && s'.lanes == s.lanes[i := l]
    requires l.port.rxPackets - s.lanes[i].port.rxPackets == |s'.received| - |s.received|
    requires (l.routed - s.lanes[i].routed) + (l.port.parseErr - s.lanes[i].port.parseErr) + |s'.leaked| - |s.leaked|
             == Frontier(s') - Frontier(s)
    ensures Counted(s')
  {
    TotalsUpdate(s.lanes, i, l);
  }

  // ---------------------------------------------------------------- the fast path receives

  lemma PollPortLanes(s: State, a: Answer)
    requires Shape(s) && LanesOk(s) && FastDefined(s, a) && s.fast.PollPort?
    ensures Shape(FastStep(s, a)) && LanesOk(FastStep(s, a))
  {
    var s' := FastStep(s, a);
    var i := s.fast.i;
    var ps := Arrive(|s.received|, a.frames);
    assert s'.received[|s'.received| - |ps|..] == ps;
    assert LaneInv(s, i);
    LaneRelabelled(s.lanes[i], s'.lanes[i], [], s.cfg, i, s.received, Frontier(s));
    LaneLater(s'.lanes[i], [], s.cfg, i, s.received, Frontier(s), s'.received, Frontier(s'));
    assert LaneInv(s', i);
    LanesPut(s, s', i, s'.lanes[i]);
  }

  lemma PollPortConserved(s: State, a: Answer)
    requires Shape(s) && Conserved(s) && FastDefined(s, a) && s.fast.PollPort?
    ensures Conserved(FastStep(s, a))
  {
    var s' := FastStep(s, a);
    var ps := Arrive(|s.received|, a.frames);
    var rest := BagsUpdate(s.lanes, s.fast.i, s'.lanes[s.fast.i]);
    assert Bag(s'.lanes[s.fast.i]) == Bag(s.lanes[s.fast.i]);
    assert s'.received == s.received + ps;
  }

  lemma PollPortCounted(s: State, a: Answer)
    requires Shape(s) && Counted(s) && FastDefined(s, a) && s.fast.PollPort?
    ensures Counted(FastStep(s, a))
  {
    var s' := FastStep(s, a);
    CountedPut(s, s', s.fast.i, s'.lanes[s.fast.i]);
  }

  /** The packet at the head of the burst is the next one to be routed. */
  lemma BurstHead(s: State)
    requires Shape(s) && s.fast.Route? && s.burst != []
    ensures var p := s.burst[0];
            && p.id == Frontier(s) && 0 <= Frontier(s) < |s.received| && s.received[p.id] == p
            && s.burst[1..] == s.received[Frontier(s) + 1..]
  {
    assert s.burst[0] == s.received[Frontier(s)];
  }

  lemma RouteShape(s: State, a: Answer)
    requires Shape(s) && FastDefined(s, a) && s.fast.Route? && s.burst != []
    ensures var s' := FastStep(s, a);
            && Shape(s') && s'.cfg == s.cfg && s'.received == s.received && s'.fast == s.fast
            && Frontier(s') == Frontier(s) + 1 && |s'.lanes| == |s.lanes|
  {
    BurstHead(s);
  }

  lemma FreeLanes(s: State, a: Answer)
    requires Shape(s) && LanesOk(s) && FastDefined(s, a) && s.fast.Route? && s.burst != []
    requires NextHop(s.cfg.table, s.burst[0].frame) == UNKNOWN_PORT
    ensures LanesOk(FastStep(s, a))
  {
    var s' := FastStep(s, a);
    var i := s.fast.i;
    RouteShape(s, a);
    assert LaneInv(s, i);
    LaneRelabelled(s.lanes[i], s'.lanes[i], [], s.cfg, i, s.received, Frontier(s));
    LaneLater(s'.lanes[i], [], s.cfg, i, s.received, Frontier(s), s'.received, Frontier(s'));
    assert LaneInv(s', i);
    LanesPut(s, s', i, s'.lanes[i]);
  }

  lemma StageLanes(s: State, a: Answer)
    requires Shape(s) && LanesOk(s) && FastDefined(s, a) && s.fast.Route? && s.burst != []
    requires NextHop(s.cfg.table, s.burst[0].frame) < s.cfg.ports
    requires NextHop(s.cfg.table, s.burst[0].frame) != UNKNOWN_PORT
    ensures LanesOk(FastStep(s, a))
  {
    var s' := FastStep(s, a);
    var p := s.burst[0];
    var port := NextHop(s.cfg.table, p.frame);
    RouteShape(s, a);
    BurstHead(s);
    assert LaneInv(s, port);
    EnqueueRxKeeps(s.lanes[port], p, [], s.cfg, port, s.received, Frontier(s));
    assert LaneInv(s', port);
    LanesPut(s, s', port, s'.lanes[port]);
  }

  lemma LeakLanes(s: State, a: Answer)
    requires Shape(s) && LanesOk(s) && FastDefined(s, a) && s.fast.Route? && s.burst != []
    requires s.cfg.ports <= NextHop(s.cfg.table, s.burst[0].frame) != UNKNOWN_PORT
    ensures LanesOk(FastStep(s, a))
  {
    var s' := FastStep(s, a);
    RouteShape(s, a);
    forall j | 0 <= j < |s'.lanes|
      ensures LaneInv(s', j)
    {
      OtherLane(s, s', j);
    }
  }

  lemma FreeConserved(s: State, a: Answer)
    requires Conserved(s) && Counted(s) && FastDefined(s, a) && s.fast.Route? && s.burst != []
    requires NextHop(s.cfg.table, s.burst[0].frame) == UNKNOWN_PORT
    ensures Conserved(FastStep(s, a)) && Counted(FastStep(s, a))
  {
    var s' := FastStep(s, a);
    var i := s.fast.i;
    assert Bag(s'.lanes[i]) == Bag(s.lanes[i]);
    MoveHead(s.burst, Bag(s.lanes[i]), Bag(s'.lanes[i]), multiset([s.burst[0]]));
    ConservedPut(s, s', i, Outcome(s'.lanes[i], [s.burst[0]]));
    CountedPut(s, s', i, s'.lanes[i]);
  }

  lemma StageConserved(s: State, a: Answer)
    requires Conserved(s) && FastDefined(s, a) && s.fast.Route? && s.burst != []
    requires NextHop(s.cfg.table, s.burst[0].frame) < s.cfg.ports
    requires NextHop(s.cfg.table, s.burst[0].frame) != UNKNOWN_PORT
    ensures Conserved(FastStep(s, a))
  {
    var s' := FastStep(s, a);
    var p := s.burst[0];
    var port := NextHop(s.cfg.table, p.frame);
    var o := EnqueueRx(s.lanes[port], p, s.cfg.capacity);
    EnqueueRxBag(s.lanes[port], p, s.cfg.capacity);
    MoveHead(s.burst, Bag(s.lanes[port]), Bag(o.lane), multiset(o.freed));
    ConservedPut(s, s', port, o);
  }

  lemma StageCounted(s: State, a: Answer)
    requires Counted(s) && FastDefined(s, a) && s.fast.Route? && s.burst != []
    requires NextHop(s.cfg.table, s.burst[0].frame) < s.cfg.ports
    requires NextHop(s.cfg.table, s.burst[0].frame) != UNKNOWN_PORT
    ensures Counted(FastStep(s, a))
  {
    var s' := FastStep(s, a);
    var port := NextHop(s.cfg.table, s.burst[0].frame);
    CountedPut(s, s', port, s'.lanes[port]);
  }

  lemma LeakConserved(s: State, a: Answer)
    requires Conserved(s) && FastDefined(s, a) && s.fast.Route? && s.burst != []
    requires s.cfg.ports <= NextHop(s.cfg.table, s.burst[0].frame) != UNKNOWN_PORT
    ensures Conserved(FastStep(s, a))
  {
    var s' := FastStep(s, a);
    assert s.burst == [s.burst[0]] + s.burst[1..];
    assert s'.leaked == s.leaked + [s.burst[0]] && s'.freed == s.freed && s'.lanes == s.lanes;
  }

  lemma LeakCounted(s: State, a: Answer)
    requires Counted(s) && FastDefined(s, a) && s.fast.Route? && s.burst != []
    requires s.cfg.ports <= NextHop(s.cfg.table, s.burst[0].frame) != UNKNOWN_PORT
    ensures Counted(FastStep(s, a))
  {
    var s' := FastStep(s, a);
    assert s'.leaked == s.leaked + [s.burst[0]] && s'.received == s.received && s'.lanes == s.lanes;
  }

  lemma RouteKeeps(s: State, a: Answer)
    requires Inv(s) && FastDefined(s, a) && s.fast.Route? && s.burst != []
    ensures Inv(FastStep(s, a))
  {
    Aspects(s);
    RouteShape(s, a);
    var port := NextHop(s.cfg.table, s.burst[0].frame);
    if port == UNKNOWN_PORT {
      FreeLanes(s, a);
      FreeConserved(s, a);
    } else if port < s.cfg.ports {
      StageLanes(s, a);
      StageConserved(s, a);
      StageCounted(s, a);
    } else {
      LeakLanes(s, a);
      LeakConserved(s, a);
      LeakCounted(s, a);
    }
    Aspects(FastStep(s, a));
  }

  // ---------------------------------------------------------------- the fast path polls and flushes

  lemma LaneOf(s: State, i: nat)
    requires Inv(s) && i < |s.lanes|
    ensures Shape(s) && Frontier(s) >= 0
    ensures LaneOk(s.lanes[i], Carried(s, i), s.cfg, i, s.received, Frontier(s))
  {
    Aspects(s);
    assert LaneInv(s, i);
  }

  /** A step that only moves the program counter of the fast path. */
  lemma CounterKeeps(s: State, fast: FastPc)
    requires Inv(s) && s.burst == [] && fast.i < s.cfg.polled
    ensures Inv(s.(fast := fast))
  {
    Aspects(s);
    var s' := s.(fast := fast);
    assert Frontier(s') == Frontier(s);
    forall j | 0 <= j < |s'.lanes|
      ensures LaneInv(s', j)
    {
      OtherLane(s, s', j);
    }
    Aspects(s');
  }

  /** A step on one lane that leaves the fast path's burst alone. */
  lemma LocalKeeps(s: State, i: nat, o: Outcome)
    requires Inv(s) && i < |s.lanes| && Frontier(s) >= 0
    requires LaneOk(o.lane, Carried(s, i), s.cfg, i, s.received, Frontier(s))
    requires Bag(o.lane) + multiset(o.freed) == Bag(s.lanes[i])
    requires o.lane.port.rxPackets == s.lanes[i].port.rxPackets && o.lane.port.parseErr == s.lanes[i].port.parseErr
    requires o.lane.routed == s.lanes[i].routed
    ensures Inv(Put(s, i, o))
  {
    Aspects(s);
    var s' := Put(s, i, o);
    assert LaneInv(s', i);
    LanesPut(s, s', i, o.lane);
    LocalConserved(s, i, o);
    CountedPut(s, s', i, o.lane);
    Aspects(s');
  }

  lemma LocalConserved(s: State, i: nat, o: Outcome)
    requires Conserved(s) && i < |s.lanes|
    requires Bag(o.lane) + multiset(o.freed) == Bag(s.lanes[i])
    ensures Conserved(Put(s, i, o))
  {
    assert multiset(s.burst) + Bag(o.lane) + multiset(o.freed) == multiset(s.burst) + (Bag(o.lane) + multiset(o.freed));
    ConservedPut(s, Put(s, i, o), i, o);
  }

  lemma FlushPortStep(s: State, a: Answer)
    requires Inv(s) && FastDefined(s, a) && s.fast.FlushPorts?
    ensures Inv(FastStep(s, a))
  {
    var i := s.fast.i;
    LaneOf(s, i);
    LaneFlushPort(s.lanes[i], a.count, [], s.cfg, i, s.received, Frontier(s));
    FlushPortBag(s.lanes[i], a.count);
    LocalKeeps(s, i, FlushPort(s.lanes[i], a.count));
    CounterKeeps(Put(s, i, FlushPort(s.lanes[i], a.count)), FastStep(s, a).fast);
  }

  lemma FlushRxStep(s: State, a: Answer)
    requires Inv(s) && FastDefined(s, a) && s.fast.FlushRxs?
    ensures Inv(FastStep(s, a))
  {
    var i := s.fast.i;
    LaneOf(s, i);
    LaneFlushRx(s.lanes[i], [], s.cfg, i, s.received, Frontier(s));
    FlushRxBag(s.lanes[i], s.cfg.capacity);
    LocalKeeps(s, i, FlushRx(s.lanes[i], s.cfg.capacity));
    CounterKeeps(Put(s, i, FlushRx(s.lanes[i], s.cfg.capacity)), FastStep(s, a).fast);
  }

  lemma PollCoprocLanes(s: State, a: Answer)
    requires Shape(s) && LanesOk(s) && FastDefined(s, a) && s.fast.PollCoproc?
    ensures Shape(FastStep(s, a)) && LanesOk(FastStep(s, a))
  {
    var s' := FastStep(s, a);
    var i := s.fast.i;
    assert LaneInv(s, i);
    FastPollKeeps(s.lanes[i], a.count, s.cfg, i, s.received, Frontier(s));
    assert LaneInv(s', i);
    LanesPut(s, s', i, s'.lanes[i]);
  }

  lemma TakeFromRing(l: Lane, count: nat)
    requires count <= |l.txRing|
    ensures multiset(l.txRing[..count]) + Bag(l.(txRing := l.txRing[count..])) == Bag(l)
  {
    assert l.txRing == l.txRing[..count] + l.txRing[count..];
  }

  lemma PollCoprocConserved(s: State, a: Answer)
    requires Shape(s) && Conserved(s) && FastDefined(s, a) && s.fast.PollCoproc?
    ensures Conserved(FastStep(s, a))
  {
    var s' := FastStep(s, a);
    var i := s.fast.i;
    TakeFromRing(s.lanes[i], a.count);
    assert s.burst == [];
    assert multiset(s'.burst) + Bag(s'.lanes[i]) + multiset([]) == multiset(s'.burst) + Bag(s'.lanes[i]);
    ConservedPut(s, s', i, Outcome(s'.lanes[i], []));
  }

  lemma PollCoprocCounted(s: State, a: Answer)
    requires Shape(s) && Counted(s) && FastDefined(s, a) && s.fast.PollCoproc?
    ensures Counted(FastStep(s, a))
  {
    var s' := FastStep(s, a);
    CountedPut(s, s', s.fast.i, s'.lanes[s.fast.i]);
  }

  lemma ForwardLanes(s: State, a: Answer)
    requires Shape(s) && LanesOk(s) && FastDefined(s, a) && s.fast.Forward? && s.burst != []
    ensures Shape(FastStep(s, a)) && LanesOk(FastStep(s, a))
  {
    var s' := FastStep(s, a);
    var i := s.fast.i;
    assert LaneInv(s, i);
    ForwardKeeps(s.lanes[i], a.count, s.burst, s.cfg, i, s.received, Frontier(s));
    assert LaneInv(s', i);
    LanesPut(s, s', i, s'.lanes[i]);
  }

  lemma ForwardConserved(s: State, a: Answer)
    requires Conserved(s) && Counted(s) && FastDefined(s, a) && s.fast.Forward? && s.burst != []
    ensures Conserved(FastStep(s, a)) && Counted(FastStep(s, a))
  {
    var s' := FastStep(s, a);
    var i := s.fast.i;
    var o := EnqueuePort(s.lanes[i], s.burst[0], a.count);
    EnqueuePortBag(s.lanes[i], s.burst[0], a.count);
    MoveHead(s.burst, Bag(s.lanes[i]), Bag(o.lane), multiset(o.freed));
    ConservedPut(s, s', i, o);
    CountedPut(s, s', i, o.lane);
  }

  lemma FastKeeps(s: State, a: Answer)
    requires Inv(s) && FastDefined(s, a)
    ensures Inv(FastStep(s, a))
  {
    match s.fast
    case PollPort(_) =>
      Aspects(s);
      PollPortLanes(s, a);
      PollPortConserved(s, a);
      PollPortCounted(s, a);
      Aspects(FastStep(s, a));
    case Route(_) =>
      if s.burst == [] { CounterKeeps(s, FastStep(s, a).fast); } else { RouteKeeps(s, a); }
    case FlushPorts(_, _) => FlushPortStep(s, a);
    case FlushRxs(_, _) => FlushRxStep(s, a);
    case PollCoproc(_) =>
      Aspects(s);
      PollCoprocLanes(s, a);
      PollCoprocConserved(s, a);
      PollCoprocCounted(s, a);
      Aspects(FastStep(s, a));
    case Forward(_) =>
      if s.burst == [] { CounterKeeps(s, FastStep(s, a).fast); } else { ForwardKeepsInv(s, a); }
  }

  lemma ForwardKeepsInv(s: State, a: Answer)
    requires Inv(s) && FastDefined(s, a) && s.fast.Forward? && s.burst != []
    ensures Inv(FastStep(s, a))
  {
    Aspects(s);
    ForwardLanes(s, a);
    ForwardConserved(s, a);
    Aspects(FastStep(s, a));
  }

  // ---------------------------------------------------------------- the steps of a coprocessor

  lemma TakeBag(l: Lane)
    requires l.burst != []
    ensures Bag(l.(burst := l.burst[1..])) + multiset{l.burst[0]} == Bag(l)
    ensures Bag(l.(burst := l.burst[1..], rejected := l.rejected + 1)) + multiset([l.burst[0]]) == Bag(l)
  {
    assert l.burst == [l.burst[0]] + l.burst[1..];
  }

  lemma CoprocAcceptStep(s: State, i: nat, count: nat)
    requires Inv(s) && CoprocDefined(s, i, count)
    requires s.lanes[i].coproc.Process? && s.lanes[i].burst != [] && s.cfg.accepts(s.lanes[i].burst[0])
    ensures Inv(CoprocStep(s, i, count))
  {
    var l := s.lanes[i];
    var l1 := l.(burst := l.burst[1..]);
    LaneOf(s, i);
    EnqueueTxKeeps(l, Carried(s, i), s.cfg, i, s.received, Frontier(s));
    TakeBag(l);
    EnqueueTxBag(l1, l.burst[0], s.cfg.capacity);
    LocalKeeps(s, i, EnqueueTx(l1, l.burst[0], s.cfg.capacity));
  }

  lemma CoprocRejectStep(s: State, i: nat, count: nat)
    requires Inv(s) && CoprocDefined(s, i, count)
    requires s.lanes[i].coproc.Process? && s.lanes[i].burst != [] && !s.cfg.accepts(s.lanes[i].burst[0])
    ensures Inv(CoprocStep(s, i, count))
  {
    var l := s.lanes[i];
    LaneOf(s, i);
    RejectKeeps(l, Carried(s, i), s.cfg, i, s.received, Frontier(s));
    TakeBag(l);
    LocalKeeps(s, i, Outcome(l.(burst := l.burst[1..], rejected := l.rejected + 1), [l.burst[0]]));
  }

  lemma CoprocPollStep(s: State, i: nat, count: nat)
    requires Inv(s) && CoprocDefined(s, i, count) && s.lanes[i].coproc.Poll?
    ensures Inv(CoprocStep(s, i, count))
  {
    var l := s.lanes[i];
    LaneOf(s, i);
    CoprocPollKeeps(l, count, Carried(s, i), s.cfg, i, s.received, Frontier(s));
    assert l.rxRing == l.rxRing[..count] + l.rxRing[count..];
    LaneAspects(l, Carried(s, i), s.cfg, i, s.received, Frontier(s));
    LocalKeeps(s, i, Outcome(l.(burst := l.rxRing[..count], rxRing := l.rxRing[count..], coproc := Process), []));
  }

  lemma CoprocFlushStep(s: State, i: nat, count: nat)
    requires Inv(s) && CoprocDefined(s, i, count) && s.lanes[i].coproc.FlushTx?
    ensures Inv(CoprocStep(s, i, count))
  {
    var l := s.lanes[i];
    LaneOf(s, i);
    LaneFlushTx(l, Carried(s, i), s.cfg, i, s.received, Frontier(s));
    FlushTxBag(l, s.cfg.capacity);
    var o := FlushTxStage(l, s.cfg.capacity);
    var l' := o.lane.(coproc := Poll);
    assert l.burst == [] by { LaneAspects(l, Carried(s, i), s.cfg, i, s.received, Frontier(s)); }
    LaneRelabelled(o.lane, l', Carried(s, i), s.cfg, i, s.received, Frontier(s));
    assert Bag(l') == Bag(o.lane);
    LocalKeeps(s, i, o.(lane := l'));
  }

  lemma CoprocKeeps(s: State, i: nat, count: nat)
    requires Inv(s) && CoprocDefined(s, i, count)
    ensures Inv(CoprocStep(s, i, count))
  {
    var l := s.lanes[i];
    if l.coproc.Poll? {
      CoprocPollStep(s, i, count);
    } else if l.coproc.FlushTx? {
      CoprocFlushStep(s, i, count);
    } else if l.burst == [] {
      LaneOf(s, i);
      LaneRelabelled(l, l.(coproc := FlushTx), Carried(s, i), s.cfg, i, s.received, Frontier(s));
      assert Bag(l.(coproc := FlushTx)) == Bag(l);
      LocalKeeps(s, i, Outcome(l.(coproc := FlushTx), []));
    } else if s.cfg.accepts(l.burst[0]) {
      CoprocAcceptStep(s, i, count);
    } else {
      CoprocRejectStep(s, i, count);
    }
  }
}
