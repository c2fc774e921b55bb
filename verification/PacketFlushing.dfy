/** No packet waits in a staging buffer from one pass of a thread to the next. */
module PacketFlushing {
  import opened PacketSwitch
  import opened PacketRuns

  ghost predicate PortsEmpty(s: State, n: nat) {
    forall j :: 0 <= j < n && j < |s.lanes| ==> s.lanes[j].portStage == []
  }

  ghost predicate RxEmpty(s: State, n: nat) {
    forall j :: 0 <= j < n && j < |s.lanes| ==> s.lanes[j].rxStage == []
  }

  ghost predicate TxEmpty(s: State) {
    forall j :: 0 <= j < |s.lanes| && s.lanes[j].coproc.Poll? ==> s.lanes[j].txStage == []
  }

  /** What has been flushed where the fast path stands. */
  ghost predicate Flushed(s: State) {
    var n := s.cfg.polled;
    match s.fast
    case PollPort(i) => PortsEmpty(s, n) && (i == 0 ==> RxEmpty(s, n))
    case Route(_) => PortsEmpty(s, n)
    case FlushPorts(pass, i) => PortsEmpty(s, i) && (pass != 1 ==> RxEmpty(s, n))
    case FlushRxs(_, i) => PortsEmpty(s, n) && RxEmpty(s, i)
    case PollCoproc(_) => RxEmpty(s, n)
    case Forward(_) => RxEmpty(s, n)
  }

  // ---------------------------------------------------------------- the order of a pass

  /** The operations of a pass in their order, for n polled ports. */
  function Position(fast: FastPc, n: nat): nat {
    match fast
    case PollPort(i) => 2 * i
    case Route(i) => 2 * i + 1
    case FlushPorts(pass, i) => (if pass == 1 then 2 * n else 6 * n) + i
    case FlushRxs(pass, i) => (if pass == 1 then 3 * n else 7 * n) + i
    case PollCoproc(i) => 4 * n + 2 * i
    case Forward(i) => 4 * n + 2 * i + 1
  }

  ghost predicate InPass(s: State) {
    && 0 < s.cfg.polled && s.fast.i < s.cfg.polled
    && (s.fast.FlushPorts? || s.fast.FlushRxs? ==> s.fast.pass == 1 || s.fast.pass == 2)
  }

  /**
    A pass polls and routes port after port, flushes all ports and all rings, polls and forwards for one
    coprocessor after the other and flushes again. A step works off one packet or goes to the next position.
   */
  lemma FastCycles(s: State, a: Answer)
    requires FastDefined(s, a) && InPass(s)
    ensures var s', n := FastStep(s, a), s.cfg.polled;
            && InPass(s')
            && (if (s.fast.Route? || s.fast.Forward?) && s.burst != [] then s'.fast == s.fast && s'.burst == s.burst[1..]
                else Position(s'.fast, n) == if Position(s.fast, n) == 8 * n - 1 then 0 else Position(s.fast, n) + 1)
  {
  }

  lemma FastKeepsFlushed(s: State, a: Answer)
    requires FastDefined(s, a) && Flushed(s) && TxEmpty(s)
    ensures Flushed(FastStep(s, a)) && TxEmpty(FastStep(s, a))
  {
    var s' := FastStep(s, a);
    match s.fast
    case PollPort(_) =>
    case Route(_) => RouteKeepsFlushed(s, a);
    case FlushPorts(_, i) => FlushPortsAdvances(s, a);
    case FlushRxs(_, i) => FlushRxsAdvances(s, a);
    case PollCoproc(_) =>
    case Forward(_) =>
  }

  lemma RouteKeepsFlushed(s: State, a: Answer)
    requires FastDefined(s, a) && s.fast.Route? && Flushed(s) && TxEmpty(s)
    ensures Flushed(FastStep(s, a)) && TxEmpty(FastStep(s, a))
  {
    var s' := FastStep(s, a);
    forall j | 0 <= j < |s.lanes|
      ensures s'.lanes[j].portStage == s.lanes[j].portStage && s'.lanes[j].txStage == s.lanes[j].txStage
      ensures s'.lanes[j].coproc == s.lanes[j].coproc
    {
    }
  }

  lemma FlushPortsAdvances(s: State, a: Answer)
    requires FastDefined(s, a) && s.fast.FlushPorts? && Flushed(s) && TxEmpty(s)
    ensures Flushed(FastStep(s, a)) && TxEmpty(FastStep(s, a))
  {
    var s' := FastStep(s, a);
    assert s'.lanes[s.fast.i].portStage == [];
    assert forall j :: 0 <= j < |s.lanes| && j != s.fast.i ==> s'.lanes[j] == s.lanes[j];
  }

  lemma FlushRxsAdvances(s: State, a: Answer)
    requires FastDefined(s, a) && s.fast.FlushRxs? && Flushed(s) && TxEmpty(s)
    ensures Flushed(FastStep(s, a)) && TxEmpty(FastStep(s, a))
  {
    var s' := FastStep(s, a);
    assert s'.lanes[s.fast.i].rxStage == [];
    assert forall j :: 0 <= j < |s.lanes| && j != s.fast.i ==> s'.lanes[j] == s.lanes[j];
  }

  lemma CoprocKeepsFlushed(s: State, i: nat, count: nat)
    requires CoprocDefined(s, i, count) && Flushed(s) && TxEmpty(s)
    ensures Flushed(CoprocStep(s, i, count)) && TxEmpty(CoprocStep(s, i, count))
  {
    var s' := CoprocStep(s, i, count);
    forall j | 0 <= j < |s.lanes|
      ensures s'.lanes[j].portStage == s.lanes[j].portStage && s'.lanes[j].rxStage == s.lanes[j].rxStage
      ensures s'.lanes[j].coproc.Poll? ==> s'.lanes[j].txStage == []
    {
    }
  }

  lemma {:induction false} RunKeepsFlushed(s: State, actions: seq<Action>)
    requires Behaviour(s, actions) && Flushed(s) && TxEmpty(s)
    ensures Flushed(Run(s, actions)) && TxEmpty(Run(s, actions))
    decreases |actions|
  {
    if actions != [] {
      match actions[0] {
        case Fast(answer) => FastKeepsFlushed(s, answer);
        case Coproc(i, count) => CoprocKeepsFlushed(s, i, count);
      }
      RunKeepsFlushed(Step(s, actions[0]), actions[1..]);
    }
  }

  /**
    In every run: when the fast path starts a pass, nothing is staged for any port that it polls, and when a
    coprocessor polls its ring, it has nothing staged for the way back.
   */
  lemma EveryPassStartsFlushed(s: State, actions: seq<Action>, i: nat)
    requires Initial(s) && Behaviour(s, actions) && i < s.cfg.polled
    ensures var s' := Run(s, actions);
            && i < |s'.lanes|
            && (s'.fast == PollPort(0) ==> s'.lanes[i].portStage == [] && s'.lanes[i].rxStage == [])
            && (s'.lanes[i].coproc.Poll? ==> s'.lanes[i].txStage == [])
  {
    RunKeepsFlushed(s, actions);
    LanesStay(s, actions);
    ConfigStays(s, actions);
  }
}
