/** The staging buffers of one virtual port and its coprocessor, and the code that works on them in place. */
module PacketBuffers {
  import opened PacketSwitch
  import opened PacketRuns

  /** struct packet_buf: a fixed array of packet descriptors and the number in use. */
  class PacketBuf {
    const buffer: array<Packet>
    var count: nat

    ghost predicate Valid()
      reads this
    {
      buffer.Length == BURST && count <= BURST
    }

    ghost function Contents(): seq<Packet>
      requires Valid()
      reads this, buffer
    {
      buffer[..count]
    }

    constructor ()
      ensures Valid() && fresh(buffer) && Contents() == []
    {
      buffer := new Packet[BURST](_ => Packet(0, Frame(0, 0)));
      count := 0;
    }

    method Add(p: Packet)
      requires Valid() && count < BURST
      modifies this, buffer
      ensures Valid() && Contents() == old(Contents()) + [p]
    {
      buffer[count] := p;
      count := count + 1;
    }
  }

  /** All that is kept per port: queue_mgr.tx[i], nf[i], kni_stats[i] and nf_stats[i]. */
  class PortQueues {
    const portBuf: PacketBuf
    const rxBuf: PacketBuf
    const txBuf: PacketBuf
    const capacity: nat
    var rxRing: seq<Packet>
    var txRing: seq<Packet>
    var burst: seq<Packet>
    var port: PortStats
    var nf: NfStats
    /** The descriptors given back to the pool, in order. */
    var freed: seq<Packet>
    ghost var delivered: seq<Packet>
    ghost var coproc: CoprocPc
    ghost var routed: nat
    ghost var rejected: nat

    ghost function Footprint(): set<object>
    {
      {this, portBuf, rxBuf, txBuf, portBuf.buffer, rxBuf.buffer, txBuf.buffer}
    }

    ghost predicate Valid()
      reads this, portBuf, rxBuf, txBuf
    {
      && portBuf.Valid() && rxBuf.Valid() && txBuf.Valid()
      && portBuf != rxBuf && portBuf != txBuf && rxBuf != txBuf
      && portBuf.buffer != rxBuf.buffer && portBuf.buffer != txBuf.buffer && rxBuf.buffer != txBuf.buffer
    }

    ghost function Abs(): Lane
      requires Valid()
      reads this, portBuf, rxBuf, txBuf, portBuf.buffer, rxBuf.buffer, txBuf.buffer
    {
      Lane(rxBuf.Contents(), rxRing, burst, txBuf.Contents(), txRing, portBuf.Contents(), delivered,
           coproc, port, nf, routed, rejected)
    }

    constructor (capacity: nat)
      ensures Valid() && fresh(Footprint() - {this}) && this.capacity == capacity
      ensures Abs() == EMPTY_LANE && freed == []
    {
      this.capacity := capacity;
      portBuf := new PacketBuf();
      rxBuf := new PacketBuf();
      txBuf := new PacketBuf();
      rxRing, txRing, burst, freed := [], [], [], [];
      port, nf := PortStats(0, 0, 0, 0), NfStats(0, 0, 0, 0);
      delivered, coproc, routed, rejected := [], Poll, 0, 0;
    }

    /** Frees the descriptors of a buffer from index `sent` on. */
    method FreeFrom(buf: PacketBuf, sent: nat)
      requires buf.Valid() && sent <= buf.count
      modifies this`freed
      ensures freed == old(freed) + buf.Contents()[sent..]
    {
      var i := sent;
      while i < buf.count
        invariant sent <= i <= buf.count
        invariant freed == old(freed) + buf.Contents()[sent..i]
      {
        freed := freed + [buf.buffer[i]];
        i := i + 1;
      }
    }

    /** `sent` is the number of packets that the port took. */
    method FlushPortQueue(sent: nat)
      requires Valid() && sent <= portBuf.count
      modifies this, portBuf
      ensures Valid()
      ensures Outcome(Abs(), freed) == After(old(freed), FlushPort(old(Abs()), sent))
    {
      if portBuf.count == 0 {
        return;
      }
      if sent < portBuf.count {
        FreeFrom(portBuf, sent);
      }
      port := port.(txPackets := port.txPackets + sent, txDropped := port.txDropped + (portBuf.count - sent));
      delivered := delivered + portBuf.Contents()[..sent];
      portBuf.count := 0;
    }

    method FlushNfRxQueue()
      requires Valid()
      modifies this, rxBuf
      ensures Valid()
      ensures Outcome(Abs(), freed) == After(old(freed), FlushRx(old(Abs()), capacity))
    {
      if rxBuf.count == 0 {
        return;
      }
      var sent := 0;
      if |rxRing| + rxBuf.count <= capacity {
        rxRing := rxRing + rxBuf.buffer[..rxBuf.count];
        sent := rxBuf.count;
      }
      if sent < rxBuf.count {
        FreeFrom(rxBuf, sent);
      }
      nf := nf.(rxPackets := nf.rxPackets + sent, rxDropped := nf.rxDropped + (rxBuf.count - sent));
      rxBuf.count := 0;
    }

    method FlushNfTxQueue()
      requires Valid()
      modifies this, txBuf
      ensures Valid() && txBuf.count == 0
      ensures Outcome(Abs(), freed) == After(old(freed), FlushTxStage(old(Abs()), capacity))
    {
      if txBuf.count == 0 {
        return;
      }
      var sent := 0;
      if |txRing| + txBuf.count <= capacity {
        txRing := txRing + txBuf.buffer[..txBuf.count];
        sent := txBuf.count;
      }
      if sent < txBuf.count {
        FreeFrom(txBuf, sent);
      }
      nf := nf.(txPackets := nf.txPackets + sent, txDropped := nf.txDropped + (txBuf.count - sent));
      txBuf.count := 0;
    }

    /** `sent` is what the port takes if the buffer becomes full. */
    method EnqueuePort(p: Packet, sent: nat)
      requires Valid() && portBuf.count < BURST && sent <= BURST
      modifies this, portBuf, portBuf.buffer
      ensures Valid() && portBuf.count < BURST
      ensures Outcome(Abs(), freed) == After(old(freed), PacketSwitch.EnqueuePort(old(Abs()), p, sent))
    {
      portBuf.Add(p);
      if portBuf.count == BURST {
        FlushPortQueue(sent);
      }
    }

    method EnqueueNfRx(p: Packet)
      requires Valid() && rxBuf.count < BURST
      modifies this, rxBuf, rxBuf.buffer
      ensures Valid() && rxBuf.count < BURST
      ensures Outcome(Abs(), freed) == After(old(freed), EnqueueRx(old(Abs()), p, capacity))
    {
      rxBuf.Add(p);
      routed := routed + 1;
      if rxBuf.count == BURST {
        FlushNfRxQueue();
      }
    }

    method EnqueueNfTx(p: Packet)
      requires Valid() && txBuf.count < BURST
      modifies this, txBuf, txBuf.buffer
      ensures Valid() && txBuf.count < BURST
      ensures Outcome(Abs(), freed) == After(old(freed), EnqueueTx(old(Abs()), p, capacity))
    {
      txBuf.Add(p);
      if txBuf.count == BURST {
        FlushNfTxQueue();
      }
    }

    /** The body of the coprocessor's loop: one packet goes back towards the fast path or is freed. */
    method ProcessOne(accepts: Packet -> bool)
      requires Valid() && txBuf.count < BURST && coproc == Process && burst != []
      modifies this, txBuf, txBuf.buffer
      ensures Valid() && txBuf.count < BURST && coproc == Process && |burst| < old(|burst|)
      ensures Outcome(Abs(), freed) == After(old(freed), CoprocLane(old(Abs()), accepts, capacity, 0))
    {
      var p := burst[0];
      burst := burst[1..];
      if accepts(p) {
        EnqueueNfTx(p);
      } else {
        freed, rejected := freed + [p], rejected + 1;
      }
    }

    method WorkOff(accepts: Packet -> bool)
      requires Valid() && txBuf.count < BURST && coproc == Process
      modifies this, txBuf, txBuf.buffer
      ensures Valid() && txBuf.count < BURST && coproc == Process && burst == []
      ensures Outcome(Abs(), freed) == After(old(freed), Drain(old(Abs()), accepts, capacity))
    {
      while burst != []
        invariant Valid() && txBuf.count < BURST && coproc == Process
        invariant After(freed, Drain(Abs(), accepts, capacity)) == After(old(freed), Drain(old(Abs()), accepts, capacity))
        decreases |burst|
      {
        ghost var l, f := Abs(), freed;
        ProcessOne(accepts);
        DrainOne(l, accepts, capacity, f);
      }
    }

    method PollRx(count: nat, ghost accepts: Packet -> bool)
      requires Valid() && coproc == Poll && count <= |rxRing|
      modifies this`burst, this`rxRing, this`coproc
      ensures Valid() && coproc == Process
      ensures Abs() == CoprocLane(old(Abs()), accepts, capacity, count).lane
    {
      burst, rxRing, coproc := rxRing[..count], rxRing[count..], Process;
    }

    method Finish(ghost accepts: Packet -> bool)
      requires Valid() && coproc == Process && burst == []
      modifies this, txBuf
      ensures Valid() && txBuf.count == 0 && coproc == Poll
      ensures Outcome(Abs(), freed)
           == After(old(freed), CoprocLane(CoprocLane(old(Abs()), accepts, capacity, 0).lane, accepts, capacity, 0))
    {
      coproc := FlushTx;
      FlushNfTxQueue();
      coproc := Poll;
    }

    /** One call of coprocessor(), in which rte_ring_dequeue_burst yields `count` packets. */
    method Coprocessor(count: nat, accepts: Packet -> bool)
      requires Valid() && txBuf.count < BURST && coproc == Poll
      requires count <= BURST && count <= |rxRing|
      modifies this, txBuf, txBuf.buffer
      ensures Valid() && txBuf.count == 0 && coproc == Poll
      ensures Outcome(Abs(), freed) == After(old(freed), Pass(old(Abs()), accepts, capacity, count))
    {
      PollRx(count, accepts);
      WorkOff(accepts);
      Finish(accepts);
    }
  }

  /** An outcome that comes after `freed` was already freed. */
  ghost function After(freed: seq<Packet>, o: Outcome): Outcome {
    o.(freed := freed + o.freed)
  }

  /** A coprocessor works off its burst. */
  ghost function Drain(l: Lane, accepts: Packet -> bool, capacity: nat): (o: Outcome)
    requires l.coproc.Process?
    ensures o.lane.coproc.Process? && o.lane.burst == []
    decreases |l.burst|
  {
    if l.burst == [] then Outcome(l, [])
    else
      var o := CoprocLane(l, accepts, capacity, 0);
      After(o.freed, Drain(o.lane, accepts, capacity))
  }

  lemma AfterTwice(freed: seq<Packet>, more: seq<Packet>, o: Outcome)
    ensures After(freed + more, o) == After(freed, After(more, o))
  {
    assert freed + (more + o.freed) == (freed + more) + o.freed;
  }

  lemma DrainOne(l: Lane, accepts: Packet -> bool, capacity: nat, freed: seq<Packet>)
    requires l.coproc.Process? && l.burst != []
    ensures var o := CoprocLane(l, accepts, capacity, 0);
            After(freed + o.freed, Drain(o.lane, accepts, capacity)) == After(freed, Drain(l, accepts, capacity))
  {
    var o := CoprocLane(l, accepts, capacity, 0);
    AfterTwice(freed, o.freed, Drain(o.lane, accepts, capacity));
  }

  /** A whole call of coprocessor(): poll, work off the burst, flush. */
  ghost function Pass(l: Lane, accepts: Packet -> bool, capacity: nat, count: nat): Outcome
    requires l.coproc.Poll? && count <= |l.rxRing|
  {
    var d := Drain(CoprocLane(l, accepts, capacity, count).lane, accepts, capacity);
    After(d.freed, CoprocLane(CoprocLane(d.lane, accepts, capacity, 0).lane, accepts, capacity, 0))
  }

  // ---------------------------------------------------------------- a call is a run of small steps

  ghost function Repeat(a: Action, n: nat): seq<Action> {
    if n == 0 then [] else [a] + Repeat(a, n - 1)
  }

  lemma {:induction false} DrainIsARun(s: State, i: nat)
    requires i < |s.lanes| && s.lanes[i].coproc.Process?
    ensures var actions := Repeat(Coproc(i, 0), |s.lanes[i].burst|);
            && Behaviour(s, actions)
            && Run(s, actions) == Put(s, i, Drain(s.lanes[i], s.cfg.accepts, s.cfg.capacity))
    decreases |s.lanes[i].burst|
  {
    var l := s.lanes[i];
    var a := Coproc(i, 0);
    if l.burst == [] {
      assert s.lanes[i := l] == s.lanes;
      assert s.freed + [] == s.freed;
    } else {
      var o := CoprocLane(l, s.cfg.accepts, s.cfg.capacity, 0);
      var s1 := Put(s, i, o);
      DrainIsARun(s1, i);
      var d := Drain(o.lane, s.cfg.accepts, s.cfg.capacity);
      assert Repeat(a, |l.burst|)[1..] == Repeat(a, |l.burst| - 1);
      PutTwice(s, i, o, d);
    }
  }

  lemma PutTwice(s: State, i: nat, o: Outcome, d: Outcome)
    requires i < |s.lanes|
    ensures Put(Put(s, i, o), i, d) == Put(s, i, After(o.freed, d))
  {
    assert s.freed + (o.freed + d.freed) == (s.freed + o.freed) + d.freed;
    assert s.lanes[i := o.lane][i := d.lane] == s.lanes[i := d.lane];
  }

  lemma RunOneMore(s: State, actions: seq<Action>, s1: State)
    requires actions != [] && Defined(s, actions[0]) && s1 == Step(s, actions[0]) && Behaviour(s1, actions[1..])
    ensures Behaviour(s, actions) && Run(s, actions) == Run(s1, actions[1..])
  {
  }

  lemma {:induction false} RunConcat(s: State, a: seq<Action>, b: seq<Action>)
    requires Behaviour(s, a) && Behaviour(Run(s, a), b)
    ensures Behaviour(s, a + b) && Run(s, a + b) == Run(Run(s, a), b)
    decreases |a|
  {
    if a == [] {
      assert a + b == b;
    } else {
      assert (a + b)[0] == a[0] && (a + b)[1..] == a[1..] + b;
      var s1 := Step(s, a[0]);
      RunConcat(s1, a[1..], b);
      RunOneMore(s, a + b, s1);
      RunOneMore(s, a, s1);
    }
  }

  lemma RunOne(s: State, a: Action)
    requires Defined(s, a)
    ensures Behaviour(s, [a]) && Run(s, [a]) == Step(s, a)
  {
    assert [a][1..] == [];
    assert Behaviour(Step(s, a), []);
  }

  lemma FinishIsARun(s: State, i: nat)
    requires i < |s.lanes| && s.lanes[i].coproc.Process? && s.lanes[i].burst == []
    ensures var a := Coproc(i, 0);
            var l := CoprocLane(s.lanes[i], s.cfg.accepts, s.cfg.capacity, 0).lane;
            && Behaviour(s, [a] + [a])
            && Run(s, [a] + [a]) == Put(s, i, CoprocLane(l, s.cfg.accepts, s.cfg.capacity, 0))
  {
    var a := Coproc(i, 0);
    var o := CoprocLane(s.lanes[i], s.cfg.accepts, s.cfg.capacity, 0);
    var o' := CoprocLane(o.lane, s.cfg.accepts, s.cfg.capacity, 0);
    RunOne(s, a);
    RunOne(Step(s, a), a);
    RunConcat(s, [a], [a]);
    PutTwice(s, i, o, o');
    assert After([], o') == o';
  }

  lemma WorkIsARun(s: State, i: nat)
    requires i < |s.lanes| && s.lanes[i].coproc.Process?
    ensures var a := Coproc(i, 0);
            var d := Drain(s.lanes[i], s.cfg.accepts, s.cfg.capacity);
            var l := CoprocLane(d.lane, s.cfg.accepts, s.cfg.capacity, 0).lane;
            var actions := Repeat(a, |s.lanes[i].burst|) + ([a] + [a]);
            && Behaviour(s, actions)
            && Run(s, actions) == Put(s, i, After(d.freed, CoprocLane(l, s.cfg.accepts, s.cfg.capacity, 0)))
  {
    var a := Coproc(i, 0);
    var d := Drain(s.lanes[i], s.cfg.accepts, s.cfg.capacity);
    var l := CoprocLane(d.lane, s.cfg.accepts, s.cfg.capacity, 0).lane;
    DrainIsARun(s, i);
    FinishIsARun(Put(s, i, d), i);
    RunConcat(s, Repeat(a, |s.lanes[i].burst|), [a] + [a]);
    PutTwice(s, i, d, CoprocLane(l, s.cfg.accepts, s.cfg.capacity, 0));
  }

  /** A call of coprocessor() on its own is one of the runs of the pipeline. */
  lemma PassIsARun(s: State, i: nat, count: nat)
    requires i < |s.lanes| && s.lanes[i].coproc.Poll? && count <= BURST && count <= |s.lanes[i].rxRing|
    ensures var a := Coproc(i, 0);
            var actions := [Coproc(i, count)] + (Repeat(a, count) + ([a] + [a]));
            && Behaviour(s, actions)
            && Run(s, actions) == Put(s, i, Pass(s.lanes[i], s.cfg.accepts, s.cfg.capacity, count))
  {
    var first := Coproc(i, count);
    var a := Coproc(i, 0);
    var o := CoprocLane(s.lanes[i], s.cfg.accepts, s.cfg.capacity, count);
    RunOne(s, first);
    WorkIsARun(Step(s, first), i);
    RunConcat(s, [first], Repeat(a, count) + ([a] + [a]));
    var r := Pass(s.lanes[i], s.cfg.accepts, s.cfg.capacity, count);
    PutTwice(s, i, o, r);
    assert After([], r) == r;
  }
}
