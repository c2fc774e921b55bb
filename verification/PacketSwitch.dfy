/**
  The packet pipeline (engine/switch.c): one fast-path thread and one coprocessor thread per virtual port.

  The threads share rings whose operations are atomic; everything else is local to one thread. A step is
  the work of one thread up to and including its next ring or port operation, and a program counter says
  where each thread stands, so every interleaving of the real loops is a sequence of these steps.
 */
module PacketSwitch {
  const BURST: nat := 32
  const UNKNOWN_PORT: nat := 0xFFFF
  const TABLE_SIZE: nat := 0x10000
  const ETHER_TYPE_IPV4: nat := 0x0800

  /** What the switch reads of a frame. */
  datatype Frame = Frame(etherType: nat, ipDst: nat)

  /** `id` is a history variable: the number of packets received before this one. */
  datatype Packet = Packet(id: nat, frame: Frame)

  /**
    `ports` is the number of active ports, `polled` the number the threads poll, `capacity` the room of a
    ring. `accepts` is the verdict of the coprocessor's network function.
   */
  datatype Config = Config(ports: nat, polled: nat, capacity: nat, table: seq<nat>, accepts: Packet -> bool)

  /** The egress port of a frame, or UNKNOWN_PORT. */
  function NextHop(table: seq<nat>, frame: Frame): nat
    requires |table| == TABLE_SIZE
  {
    if frame.etherType != ETHER_TYPE_IPV4 then UNKNOWN_PORT else table[frame.ipDst % 0x10000]
  }

  datatype PortStats = PortStats(rxPackets: nat, parseErr: nat, txPackets: nat, txDropped: nat)

  datatype NfStats = NfStats(rxPackets: nat, rxDropped: nat, txPackets: nat, txDropped: nat)

  datatype CoprocPc = Poll | Process | FlushTx

  /**
    Everything a packet passes on its way to one port: the staging buffer and the ring towards the
    coprocessor, the coprocessor's burst, the staging buffer and the ring back, the port's staging buffer.
    `delivered`, `routed` and `rejected` are history variables.
   */
  datatype Lane = Lane(
    rxStage: seq<Packet>,
    rxRing: seq<Packet>,
    burst: seq<Packet>,
    txStage: seq<Packet>,
    txRing: seq<Packet>,
    portStage: seq<Packet>,
    delivered: seq<Packet>,
    coproc: CoprocPc,
    port: PortStats,
    nf: NfStats,
    routed: nat,
    rejected: nat)

  /** A lane and the packets that were freed in producing it. */
  datatype Outcome = Outcome(lane: Lane, freed: seq<Packet>)

  // ---------------------------------------------------------------- staging buffers and rings

  /** rte_kni_tx_burst takes a prefix of `sent` packets; the rest is freed. */
  function FlushPort(l: Lane, sent: nat): Outcome
    requires sent <= |l.portStage|
  {
    Outcome(l.(portStage := [], delivered := l.delivered + l.portStage[..sent],
               port := l.port.(txPackets := l.port.txPackets + sent,
                               txDropped := l.port.txDropped + (|l.portStage| - sent))),
            l.portStage[sent..])
  }

  /** rte_ring_enqueue_bulk takes all packets or none; those not taken are freed. */
  function FlushRx(l: Lane, capacity: nat): Outcome {
    var n := |l.rxStage|;
    if |l.rxRing| + n <= capacity then
      Outcome(l.(rxStage := [], rxRing := l.rxRing + l.rxStage, nf := l.nf.(rxPackets := l.nf.rxPackets + n)), [])
    else
      Outcome(l.(rxStage := [], nf := l.nf.(rxDropped := l.nf.rxDropped + n)), l.rxStage)
  }

  function FlushTxStage(l: Lane, capacity: nat): Outcome {
    var n := |l.txStage|;
    if |l.txRing| + n <= capacity then
      Outcome(l.(txStage := [], txRing := l.txRing + l.txStage, nf := l.nf.(txPackets := l.nf.txPackets + n)), [])
    else
      Outcome(l.(txStage := [], nf := l.nf.(txDropped := l.nf.txDropped + n)), l.txStage)
  }

  /** `sent` is what the port takes if the buffer becomes full. */
  function EnqueuePort(l: Lane, p: Packet, sent: nat): Outcome
    requires |l.portStage| < BURST && sent <= BURST
  {
    var l1 := l.(portStage := l.portStage + [p]);
    if |l1.portStage| == BURST then FlushPort(l1, sent) else Outcome(l1, [])
  }

  function EnqueueRx(l: Lane, p: Packet, capacity: nat): Outcome {
    var l1 := l.(rxStage := l.rxStage + [p], routed := l.routed + 1);
    if |l1.rxStage| == BURST then FlushRx(l1, capacity) else Outcome(l1, [])
  }

  function EnqueueTx(l: Lane, p: Packet, capacity: nat): Outcome {
    var l1 := l.(txStage := l.txStage + [p]);
    if |l1.txStage| == BURST then FlushTxStage(l1, capacity) else Outcome(l1, [])
  }

  // ---------------------------------------------------------------- the threads

  /** Where the fast path stands: `pass` tells its two flush_all calls apart. */
  datatype FastPc =
    | PollPort(i: nat)
    | Route(i: nat)
    | FlushPorts(pass: nat, i: nat)
    | FlushRxs(pass: nat, i: nat)
    | PollCoproc(i: nat)
    | Forward(i: nat)

  /** `received`, `freed` and `leaked` are history variables. */
  datatype State = State(
    cfg: Config,
    lanes: seq<Lane>,
    fast: FastPc,
    burst: seq<Packet>,
    received: seq<Packet>,
    freed: seq<Packet>,
    leaked: seq<Packet>)

  predicate ConfigOk(cfg: Config) {
    1 <= cfg.polled <= cfg.ports && |cfg.table| == TABLE_SIZE
  }

  /** What the fast path's next operation may return from the outside. */
  datatype Answer = Answer(frames: seq<Frame>, count: nat)

  /** Each operation of the fast path is defined: indices and counts are in range. */
  predicate FastDefined(s: State, a: Answer) {
    && ConfigOk(s.cfg) && |s.lanes| == s.cfg.ports
    && s.fast.i < s.cfg.polled
    && match s.fast
       case PollPort(_) => |a.frames| <= BURST
       case Route(_) => true
       case FlushPorts(_, i) => a.count <= |s.lanes[i].portStage|
       case FlushRxs(_, _) => true
       case PollCoproc(i) => a.count <= BURST && a.count <= |s.lanes[i].txRing|
       case Forward(i) => a.count <= BURST && |s.lanes[i].portStage| < BURST
  }

  /** The packets of a burst, numbered from `first`. */
  function Arrive(first: nat, frames: seq<Frame>): (ps: seq<Packet>)
    ensures |ps| == |frames|
    ensures forall j :: 0 <= j < |ps| ==> ps[j] == Packet(first + j, frames[j])
  {
    seq(|frames|, j requires 0 <= j < |frames| => Packet(first + j, frames[j]))
  }

  function Put(s: State, i: nat, o: Outcome): State
    requires i < |s.lanes|
  {
    s.(lanes := s.lanes[i := o.lane], freed := s.freed + o.freed)
  }

  /** enqueue_nf_rx, or the free of a packet without egress port; an unknown port loses the packet silently. */
  function RouteOne(s: State, i: nat): State
    requires ConfigOk(s.cfg) && |s.lanes| == s.cfg.ports && i < |s.lanes| && s.burst != []
  {
    var p := s.burst[0];
    var s1 := s.(burst := s.burst[1..]);
    var port := NextHop(s.cfg.table, p.frame);
    if port == UNKNOWN_PORT then
      var l := s1.lanes[i];
      Put(s1, i, Outcome(l.(port := l.port.(parseErr := l.port.parseErr + 1)), [p]))
    else if port >= s.cfg.ports then s1.(leaked := s1.leaked + [p])
    else Put(s1, port, EnqueueRx(s1.lanes[port], p, s.cfg.capacity))
  }

  /** One step of the fast path. */
  function FastStep(s: State, a: Answer): State
    requires FastDefined(s, a)
  {
    var last := s.cfg.polled - 1;
    match s.fast
    case PollPort(i) =>
      var l := s.lanes[i];
      var ps := Arrive(|s.received|, a.frames);
      s.(burst := ps, received := s.received + ps, fast := Route(i),
         lanes := s.lanes[i := l.(port := l.port.(rxPackets := l.port.rxPackets + |ps|))])
    case Route(i) =>
      if s.burst == [] then s.(fast := if i < last then PollPort(i + 1) else FlushPorts(1, 0))
      else RouteOne(s, i)
    case FlushPorts(pass, i) =>
      Put(s, i, FlushPort(s.lanes[i], a.count)).(fast := if i < last then FlushPorts(pass, i + 1) else FlushRxs(pass, 0))
    case FlushRxs(pass, i) =>
      Put(s, i, FlushRx(s.lanes[i], s.cfg.capacity))
        .(fast := if i < last then FlushRxs(pass, i + 1) else if pass == 1 then PollCoproc(0) else PollPort(0))
    case PollCoproc(i) =>
      var l := s.lanes[i];
      s.(burst := l.txRing[..a.count], lanes := s.lanes[i := l.(txRing := l.txRing[a.count..])], fast := Forward(i))
    case Forward(i) =>
      if s.burst == [] then s.(fast := if i < last then PollCoproc(i + 1) else FlushPorts(2, 0))
      else Put(s.(burst := s.burst[1..]), i, EnqueuePort(s.lanes[i], s.burst[0], a.count))
  }

  predicate CoprocDefined(s: State, i: nat, count: nat) {
    && i < |s.lanes|
    && (s.lanes[i].coproc.Poll? ==> count <= BURST && count <= |s.lanes[i].rxRing|)
  }

  /** One step of a coprocessor on its lane. */
  function CoprocLane(l: Lane, accepts: Packet -> bool, capacity: nat, count: nat): Outcome
    requires l.coproc.Poll? ==> count <= |l.rxRing|
  {
    match l.coproc
    case Poll => Outcome(l.(burst := l.rxRing[..count], rxRing := l.rxRing[count..], coproc := Process), [])
    case Process =>
      if l.burst == [] then Outcome(l.(coproc := FlushTx), [])
      else
        var p := l.burst[0];
        var l1 := l.(burst := l.burst[1..]);
        if accepts(p) then EnqueueTx(l1, p, capacity) else Outcome(l1.(rejected := l1.rejected + 1), [p])
    case FlushTx =>
      var o := FlushTxStage(l, capacity);
      o.(lane := o.lane.(coproc := Poll))
  }

  /** One step of coprocessor i. */
  function CoprocStep(s: State, i: nat, count: nat): State
    requires CoprocDefined(s, i, count)
  {
    Put(s, i, CoprocLane(s.lanes[i], s.cfg.accepts, s.cfg.capacity, count))
  }

  datatype Action = Fast(answer: Answer) | Coproc(i: nat, count: nat)

  predicate Defined(s: State, a: Action) {
    match a
    case Fast(answer) => FastDefined(s, answer)
    case Coproc(i, count) => CoprocDefined(s, i, count)
  }

  function Step(s: State, a: Action): State
    requires Defined(s, a)
  {
    match a
    case Fast(answer) => FastStep(s, answer)
    case Coproc(i, count) => CoprocStep(s, i, count)
  }

  const EMPTY_LANE := Lane([], [], [], [], [], [], [], Poll, PortStats(0, 0, 0, 0), NfStats(0, 0, 0, 0), 0, 0)

  predicate Initial(s: State) {
    && ConfigOk(s.cfg) && |s.lanes| == s.cfg.ports
    && (forall i :: 0 <= i < |s.lanes| ==> s.lanes[i] == EMPTY_LANE)
    && s.fast == PollPort(0)
    && s.burst == [] && s.received == [] && s.freed == [] && s.leaked == []
  }
}
