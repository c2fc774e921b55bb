/** How many packets the fast path sends where, over every run. */
module PacketTally {
  import opened PacketSwitch
  import opened PacketInvariant
  import opened PacketRuns
  import opened PacketJourney

  /** The packets whose egress port is the given one. */
  ghost function BoundFor(cfg: Config, port: nat): Packet -> bool
    requires ConfigOk(cfg)
  {
    (p: Packet) => NextHop(cfg.table, p.frame) == port
  }

  /** The packets for a port that does not exist. */
  ghost function BoundForNowhere(cfg: Config): Packet -> bool
    requires ConfigOk(cfg)
  {
    (p: Packet) => cfg.ports <= NextHop(cfg.table, p.frame) != UNKNOWN_PORT
  }

  function ParseErrors(lanes: seq<Lane>): nat {
    if lanes == [] then 0 else ParseErrors(lanes[..|lanes| - 1]) + lanes[|lanes| - 1].port.parseErr
  }

  /** The packets that have been routed. */
  ghost function Routed(s: State): seq<Packet>
    requires 0 <= Frontier(s) <= |s.received|
  {
    s.received[..Frontier(s)]
  }

  ghost predicate Tallied(s: State) {
    && Shape(s) && 0 <= Frontier(s) <= |s.received|
    && (forall i :: 0 <= i < |s.lanes| && i != UNKNOWN_PORT ==>
          s.lanes[i].routed == |Filter(Routed(s), BoundFor(s.cfg, i))|)
    && ParseErrors(s.lanes) == |Filter(Routed(s), BoundFor(s.cfg, UNKNOWN_PORT))|
    && s.leaked == Filter(Routed(s), BoundForNowhere(s.cfg))
  }

  lemma {:induction false} ParseErrorsUpdate(lanes: seq<Lane>, i: nat, l: Lane)
    requires i < |lanes|
    ensures ParseErrors(lanes[i := l]) == ParseErrors(lanes) - lanes[i].port.parseErr + l.port.parseErr
  {
    var n := |lanes| - 1;
    var updated := lanes[i := l];
    if i == n {
      assert updated[..n] == lanes[..n];
    } else {
      ParseErrorsUpdate(lanes[..n], i, l);
      assert updated[..n] == lanes[..n][i := l];
    }
  }

  lemma {:induction false} NoErrors(lanes: seq<Lane>)
    requires forall i :: 0 <= i < |lanes| ==> lanes[i] == EMPTY_LANE
    ensures ParseErrors(lanes) == 0
  {
    if lanes != [] {
      NoErrors(lanes[..|lanes| - 1]);
    }
  }

  /** One more packet has been routed. */
  lemma OneMoreRouted(s: State, a: Answer)
    requires Shape(s) && FastDefined(s, a) && s.fast.Route? && s.burst != [] && 0 <= Frontier(s) <= |s.received|
    ensures var s' := FastStep(s, a);
            && 0 <= Frontier(s') <= |s'.received| && s'.received == s.received
            && Routed(s') == Routed(s) + [s.burst[0]]
  {
    var s' := FastStep(s, a);
    var n := Frontier(s);
    assert Frontier(s') == n + 1;
    assert s.burst[0] == s.received[n..][0] == s.received[n];
    assert s.received[..n + 1] == s.received[..n] + [s.received[n]];
  }

  lemma FilterOneMore(b: seq<Packet>, p: Packet, keep: Packet -> bool)
    ensures Filter(b + [p], keep) == if keep(p) then Filter(b, keep) + [p] else Filter(b, keep)
  {
    assert (b + [p])[..|b + [p]| - 1] == b;
  }

  /** What routing a packet adds to the tally. */
  lemma RouteAdds(s: State, a: Answer)
    requires Shape(s) && FastDefined(s, a) && s.fast.Route? && s.burst != []
    ensures var s', p := FastStep(s, a), s.burst[0];
            var port := NextHop(s.cfg.table, p.frame);
            && s'.cfg == s.cfg && |s'.lanes| == |s.lanes|
            && (forall i :: 0 <= i < |s.lanes| && i != UNKNOWN_PORT ==>
                  s'.lanes[i].routed == s.lanes[i].routed + if port == i then 1 else 0)
            && ParseErrors(s'.lanes) == ParseErrors(s.lanes) + (if port == UNKNOWN_PORT then 1 else 0)
            && s'.leaked == if s.cfg.ports <= port != UNKNOWN_PORT then s.leaked + [p] else s.leaked
  {
    var s', port := FastStep(s, a), NextHop(s.cfg.table, s.burst[0].frame);
    if port == UNKNOWN_PORT {
      ParseErrorsUpdate(s.lanes, s.fast.i, s'.lanes[s.fast.i]);
    } else if port < |s.lanes| {
      ParseErrorsUpdate(s.lanes, port, s'.lanes[port]);
    }
  }

  lemma RouteTallies(s: State, a: Answer)
    requires Inv(s) && FastDefined(s, a) && s.fast.Route? && s.burst != [] && Tallied(s)
    ensures Tallied(FastStep(s, a))
  {
    var s', p := FastStep(s, a), s.burst[0];
    assert Shape(s') by {
      FastKeeps(s, a);
      Aspects(s');
    }
    OneMoreRouted(s, a);
    RouteAdds(s, a);
    FilterOneMore(Routed(s), p, BoundFor(s.cfg, UNKNOWN_PORT));
    FilterOneMore(Routed(s), p, BoundForNowhere(s.cfg));
    forall i | 0 <= i < |s.lanes| && i != UNKNOWN_PORT
      ensures s'.lanes[i].routed == |Filter(Routed(s'), BoundFor(s.cfg, i))|
    {
      FilterOneMore(Routed(s), p, BoundFor(s.cfg, i));
    }
  }

  /** Every other step leaves the tally alone. */
  lemma OtherStepsTally(s: State, a: Action)
    requires Inv(s) && Defined(s, a) && Tallied(s) && !(a.Fast? && s.fast.Route? && s.burst != [])
    ensures Tallied(Step(s, a))
  {
    var s' := Step(s, a);
    StepKeeps(s, a);
    assert Shape(s') by { Aspects(s'); }
    SameTally(s, a);
    assert Routed(s') == Routed(s);
  }

  lemma SameTally(s: State, a: Action)
    requires Shape(s) && Defined(s, a) && !(a.Fast? && s.fast.Route? && s.burst != [])
    ensures var s' := Step(s, a);
            && s'.cfg == s.cfg && |s'.lanes| == |s.lanes| && Frontier(s') == Frontier(s) && s.received <= s'.received
            && (forall i :: 0 <= i < |s.lanes| ==> s'.lanes[i].routed == s.lanes[i].routed)
            && ParseErrors(s'.lanes) == ParseErrors(s.lanes) && s'.leaked == s.leaked
  {
    var i := if a.Fast? then s.fast.i else a.i;
    ParseErrorsUpdate(s.lanes, i, Step(s, a).lanes[i]);
    assert Step(s, a).lanes == s.lanes[i := Step(s, a).lanes[i]];
  }

  lemma {:induction false} RunTallies(s: State, actions: seq<Action>)
    requires Inv(s) && Behaviour(s, actions) && Tallied(s)
    ensures Tallied(Run(s, actions))
    decreases |actions|
  {
    if actions != [] {
      StepKeeps(s, actions[0]);
      if actions[0].Fast? && s.fast.Route? && s.burst != [] {
        RouteTallies(s, actions[0].answer);
      } else {
        OtherStepsTally(s, actions[0]);
      }
      RunTallies(Step(s, actions[0]), actions[1..]);
    }
  }

  /**
    In every run: a port has been handed exactly the packets that the table sends to it, exactly the packets
    without an egress port are parse errors, and exactly those for a port that does not exist are lost.
   */
  lemma EveryRunRoutesByTheTable(s: State, actions: seq<Action>)
    requires Initial(s) && Behaviour(s, actions)
    ensures Tallied(Run(s, actions))
  {
    InitialKeeps(s);
    NoErrors(s.lanes);
    Aspects(s);
    assert Routed(s) == [];
    RunTallies(s, actions);
  }

  // ---------------------------------------------------------------- whose counters grow

  /** A poll counts on the port that was polled, a parse error on the port where the packet came in. */
  lemma ReceiveCounters(s: State, a: Action, j: nat)
    requires Shape(s) && Defined(s, a) && j < |s.lanes|
    ensures j < |Step(s, a).lanes|
    ensures var before, after := s.lanes[j].port, Step(s, a).lanes[j].port;
            && after.rxPackets == before.rxPackets + (if a.Fast? && s.fast == PollPort(j) then |a.answer.frames| else 0)
            && after.parseErr == before.parseErr
                                 + if a.Fast? && s.fast == Route(j) && s.burst != []
                                      && NextHop(s.cfg.table, s.burst[0].frame) == UNKNOWN_PORT then 1 else 0
  {
  }
}
