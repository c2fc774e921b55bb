/**
  One scheduling round (GlobalSchedule) and the migration of the global agent (PickNextGlobalCPU).

  The kernel is an oracle. Within a round each CPU is scanned once, each CPU receives at most one commit
  and, as proved here, each task is picked at most once, so answers indexed by CPU or task are general.
 */
module SchedulerRound {
  import opened Options
  import opened CpuLists
  import opened SchedulerState
  import opened SchedulerInvariant
  import opened SchedulerSteps

  /**
    What the kernel answers during a round: CPUs running idle or ghOSt tasks, CPUs whose last request is
    committed and how it ended, the clock and the random draw when a CPU is scanned, tasks whose name
    contains memcached, tasks that are still on a CPU or have unread messages, CPUs on which a commit over
    a running task succeeds, the clock when a CPU is assigned, and the runtimes of tasks.
   */
  datatype Kernel = Kernel(
    available: set<CpuId>,
    committed: set<CpuId>,
    txn: CpuId -> TxnState,
    scanTime: CpuId -> int,
    draw: set<CpuId>,
    memcached: set<TaskId>,
    stale: set<TaskId>,
    commits: set<CpuId>,
    submitTime: CpuId -> int,
    runtime: TaskId -> nat)

  /** In microseconds. */
  const PREEMPT_AFTER := 300

  /** A round in progress. `lost` and `picked` are history variables. */
  datatype Round = Round(
    s: State,
    avail: set<CpuId>,
    low: set<CpuId>,
    lost: set<TaskId>,
    picked: seq<TaskId>)

  // ---------------------------------------------------------------- scanning the CPUs

  /** Whether the scan reaps the transaction of c. */
  predicate Reaps(s: State, k: Kernel, c: CpuId)
    requires c < |s.slots|
  {
    c in k.committed &&
    if c !in k.available then s.slots[c].next.Some?
    else c != s.globalCpu && s.slots[c].current.None?
  }

  function ScanCpu(s: State, k: Kernel, c: CpuId): State
    requires SyncDefined(s, c)
  {
    if Reaps(s, k, c) then SyncCpuState(s, c, k.txn(c)) else s
  }

  /** A task that may be preempted: no memcached task, or one that has run long enough and is drawn. */
  predicate Preemptable(k: Kernel, c: CpuId, t: TaskId, startSubmit: Option<int>) {
    if t in k.memcached then
      c in k.draw && startSubmit.Some? && k.scanTime(c) - startSubmit.value > PREEMPT_AFTER
    else true
  }

  /** An idle CPU: available, without running task, and with nothing pending that has completed. */
  predicate IsIdle(s: State, k: Kernel, c: CpuId) {
    && c < |s.slots|
    && c in k.available && c in k.committed && c != s.globalCpu
    && s.slots[c].current.None? && !s.slots[c].inSwitchto
    && (s.slots[c].next.None? || !k.txn(c).Complete?)
  }

  /**
    A preemptable CPU: its transaction has completed since the last round, and the task may be preempted.
    A CPU whose running task was reaped in an earlier round does not qualify.
   */
  predicate IsPreemptable(s: State, k: Kernel, c: CpuId) {
    && c < |s.slots|
    && c in k.available && c in k.committed && c != s.globalCpu
    && s.slots[c].current.None? && s.slots[c].next.Some? && k.txn(c).Complete?
    && s.slots[c].next.value in s.tasks
    && Preemptable(k, c, s.slots[c].next.value, s.tasks[s.slots[c].next.value].startSubmit)
  }

  function Idle(s: State, k: Kernel, cpus: set<CpuId>): set<CpuId> {
    set c | c in cpus && IsIdle(s, k, c)
  }

  function PreemptableCpus(s: State, k: Kernel, cpus: set<CpuId>): set<CpuId> {
    set c | c in cpus && IsPreemptable(s, k, c)
  }

  ghost predicate CpusReady(s: State, avail: set<CpuId>, low: set<CpuId>) {
    && (forall c :: c in avail ==>
          && c in s.cfg.cpus && c < |s.slots| && c != s.globalCpu
          && s.slots[c].current.None? && s.slots[c].next.None? && !s.slots[c].inSwitchto)
    && (forall c :: c in low ==> c in s.cfg.cpus && c < |s.slots| && s.slots[c].current.Some?)
  }

  ghost predicate RuntimesGrow(s: State, k: Kernel) {
    forall t {:trigger k.runtime(t)} :: t in s.tasks ==> s.tasks[t].runtime <= k.runtime(t)
  }

  /** What reaping a transaction leaves alone. */
  lemma SyncFrame(s: State, c: CpuId, txn: TxnState)
    requires SyncDefined(s, c)
    requires s.slots[c].next.Some? ==> s.slots[c].current.None?
    ensures var s' := SyncCpuState(s, c, txn);
            && s'.cfg == s.cfg && s'.globalCpu == s.globalCpu && |s'.slots| == |s.slots|
            && (forall d :: 0 <= d < |s.slots| && d != c ==> s'.slots[d] == s.slots[d])
            && s'.slots[c].inSwitchto == s.slots[c].inSwitchto && s'.slots[c].next.None?
            && s'.slots[c].current == (if s.slots[c].next.Some? && txn.Complete? then s.slots[c].next
                                       else s.slots[c].current)
            && s'.tasks.Keys == s.tasks.Keys
            && (forall t :: t in s.tasks ==> s'.tasks[t].runtime == s.tasks[t].runtime)
            && (forall t :: t in s.tasks && s.slots[c].next != Some(t) ==> s'.tasks[t] == s.tasks[t])
            && (s.slots[c].next.Some? && txn.Complete? ==>
                  var t := s.slots[c].next.value; s'.tasks[t].startSubmit == s.tasks[t].startSubmit)
  {
  }

  lemma ScanCpuKeeps(s: State, k: Kernel, c: CpuId)
    requires Inv(s) && c < |s.slots| && RuntimesGrow(s, k)
    ensures SyncDefined(s, c)
    ensures var s' := ScanCpu(s, k, c);
            && Inv(s') && s'.cfg == s.cfg && s'.globalCpu == s.globalCpu && |s'.slots| == |s.slots|
            && RuntimesGrow(s', k)
            && (forall d :: 0 <= d < |s.slots| && d != c ==> s'.slots[d] == s.slots[d])
  {
    SyncIsDefined(s, c);
    SyncKeepsInv(s, c, k.txn(c));
    SyncFrame(s, c, k.txn(c));
  }

  /** Scanning one CPU decides that CPU. */
  lemma ScanDecides(s: State, k: Kernel, c: CpuId)
    requires Inv(s) && c < |s.slots|
    ensures SyncDefined(s, c)
    ensures var s' := ScanCpu(s, k, c);
            && (IsIdle(s, k, c) <==>
                  && Reaps(s, k, c) && c in k.available
                  && s'.slots[c].current.None? && s'.slots[c].next.None? && !s'.slots[c].inSwitchto)
            && (IsPreemptable(s, k, c) <==>
                  && Reaps(s, k, c) && c in k.available && s'.slots[c].current.Some?
                  && s'.slots[c].current.value in s'.tasks
                  && Preemptable(k, c, s'.slots[c].current.value, s'.tasks[s'.slots[c].current.value].startSubmit))
  {
    SyncIsDefined(s, c);
    SyncFrame(s, c, k.txn(c));
  }

  /** Scanning one CPU does not change what another looks like. */
  lemma ScanKeepsOthers(s: State, k: Kernel, c: CpuId, d: CpuId)
    requires Inv(s) && c < |s.slots| && d < |s.slots| && c != d
    ensures SyncDefined(s, c)
    ensures IsIdle(ScanCpu(s, k, c), k, d) <==> IsIdle(s, k, d)
    ensures IsPreemptable(ScanCpu(s, k, c), k, d) <==> IsPreemptable(s, k, d)
  {
    Aspects(s);
    SyncIsDefined(s, c);
    SyncFrame(s, c, k.txn(c));
    assert SlotOk(s, {}, c) && SlotOk(s, {}, d);
  }

  lemma ScanKeepsRest(s: State, k: Kernel, c: CpuId, rest: set<CpuId>)
    requires Inv(s) && c < |s.slots| && c !in rest && rest <= s.cfg.cpus
    ensures SyncDefined(s, c)
    ensures Idle(ScanCpu(s, k, c), k, rest) == Idle(s, k, rest)
    ensures PreemptableCpus(ScanCpu(s, k, c), k, rest) == PreemptableCpus(s, k, rest)
  {
    Aspects(s);
    SyncIsDefined(s, c);
    forall d | d in rest
      ensures IsIdle(ScanCpu(s, k, c), k, d) <==> IsIdle(s, k, d)
      ensures IsPreemptable(ScanCpu(s, k, c), k, d) <==> IsPreemptable(s, k, d)
    {
      ScanKeepsOthers(s, k, c, d);
    }
  }

  lemma CpusHaveSlots(s: State)
    requires Inv(s)
    ensures forall c :: c in s.cfg.cpus ==> c < |s.slots|
    ensures s.cfg.home in s.cfg.cpus
  {
    Aspects(s);
  }

  /** The state after the scan of `rest`, in increasing CPU order. */
  ghost function ScanState(s: State, k: Kernel, rest: set<CpuId>): (s': State)
    requires Inv(s) && rest <= s.cfg.cpus && RuntimesGrow(s, k)
    ensures Inv(s') && s'.cfg == s.cfg && s'.globalCpu == s.globalCpu && |s'.slots| == |s.slots|
    ensures RuntimesGrow(s', k)
    ensures forall d :: 0 <= d < |s.slots| && d !in rest ==> s'.slots[d] == s.slots[d]
    decreases |rest|
  {
    if rest == {} then s
    else
      var c := Front(rest);
      CpusHaveSlots(s);
      ScanCpuKeeps(s, k, c);
      ScanState(ScanCpu(s, k, c), k, rest - {c})
  }

  lemma {:induction false} ScanReady(s: State, k: Kernel, rest: set<CpuId>)
    requires Inv(s) && rest <= s.cfg.cpus && RuntimesGrow(s, k)
    ensures CpusReady(ScanState(s, k, rest), Idle(s, k, rest), PreemptableCpus(s, k, rest))
    decreases |rest|
  {
    Aspects(s);
    if rest != {} {
      var c := Front(rest);
      ScanCpuKeeps(s, k, c);
      ScanReady(ScanCpu(s, k, c), k, rest - {c});
      ScanKeepsRest(s, k, c, rest - {c});
      ScanDecides(s, k, c);
      assert forall d :: d in Idle(s, k, rest) ==> d == c || d in Idle(s, k, rest - {c});
      assert forall d :: d in PreemptableCpus(s, k, rest) ==> d == c || d in PreemptableCpus(s, k, rest - {c});
    }
  }

  /** The round after the scan of all CPUs. */
  ghost function Scanned(s: State, k: Kernel): (r: Round)
    requires Inv(s) && RuntimesGrow(s, k)
    ensures RoundInv(r, k) && r.s.cfg == s.cfg && r.picked == []
  {
    ScanReady(s, k, s.cfg.cpus);
    Round(ScanState(s, k, s.cfg.cpus), Idle(s, k, s.cfg.cpus), PreemptableCpus(s, k, s.cfg.cpus), {}, [])
  }

  // ---------------------------------------------------------------- placing the queued tasks

  ghost predicate RoundInv(r: Round, k: Kernel) {
    Inv(r.s) && CpusReady(r.s, r.avail, r.low) && RuntimesGrow(r.s, k)
  }

  function Measure(r: Round): nat {
    |r.avail| + |r.low| + |r.s.runQ| + |r.s.lowQ|
  }

  /** The idle CPU chosen for t. */
  ghost function IdleChoice(r: Round, t: TaskId): Option<CpuId>
    requires t in r.s.tasks
  {
    var task := r.s.tasks[t];
    BestCpu(r.s.cfg.topology, task.cpu, Permitted(r.avail, task.allowed, r.s.cfg.enforceAffinity))
  }

  /** The CPU whose task t may replace. */
  ghost function PreemptChoice(r: Round, t: TaskId): Option<CpuId>
    requires t in r.s.tasks
  {
    var task := r.s.tasks[t];
    BestCpu(r.s.cfg.topology, task.cpu, Permitted(r.low, task.allowed, r.s.cfg.enforceAffinity))
  }

  lemma ChoiceIsPermitted(r: Round, t: TaskId)
    requires t in r.s.tasks
    ensures IdleChoice(r, t).Some? ==>
              && IdleChoice(r, t).value in r.avail
              && (r.s.cfg.enforceAffinity ==> IdleChoice(r, t).value in r.s.tasks[t].allowed)
    ensures PreemptChoice(r, t).Some? ==>
              && PreemptChoice(r, t).value in r.low
              && (r.s.cfg.enforceAffinity ==> PreemptChoice(r, t).value in r.s.tasks[t].allowed)
  {
  }

  /** The running task of a preemptable CPU. */
  function Victim(s: State, c: CpuId): TaskId
    requires c < |s.slots| && s.slots[c].current.Some?
  {
    s.slots[c].current.value
  }

  lemma PlacementIsDefined(r: Round, k: Kernel)
    requires RoundInv(r, k) && Head(r.s).Some?
    ensures var t := Head(r.s).value;
            var s1 := Dequeue(r.s);
            && t in s1.tasks && s1.tasks[t].runState.Queued?
            && s1.tasks == r.s.tasks && s1.slots == r.s.slots
            && Placed(s1, {t}) && Flagged(s1, {t}) && Balanced(s1)
            && (PreemptChoice(r, t).Some? ==>
                  var c := PreemptChoice(r, t).value;
                  && c < |s1.slots| && s1.slots[c].current.Some?
                  && ReplaceDefined(s1, c, t, k.runtime(Victim(s1, c))))
  {
    Aspects(r.s);
    var t := Head(r.s).value;
    var s1 := Dequeue(r.s);
    DequeueTakesOut(r.s, {});
    assert {} + {t} == {t};
    if PreemptChoice(r, t).Some? {
      var c := PreemptChoice(r, t).value;
      ChoiceIsPermitted(r, t);
      assert SlotOk(s1, {t}, c);
      ReplaceIsDefined(s1, c, t, k.runtime(Victim(s1, c)));
    }
  }

  /** What a turn of the placement loop relies on. */
  lemma TurnIsDefined(r: Round, k: Kernel)
    requires RoundInv(r, k) && Head(r.s).Some?
    ensures var t := Head(r.s).value;
            var s1 := Dequeue(r.s);
            && t in s1.tasks && s1.tasks[t].runState.Queued?
            && s1.tasks == r.s.tasks && s1.slots == r.s.slots && s1.cfg == r.s.cfg
            && (IdleChoice(r, t).Some? ==>
                  var c := IdleChoice(r, t).value;
                  c < |s1.slots| && s1.slots[c].next.None? && s1.slots[c].current.None?)
            && (PreemptChoice(r, t).Some? ==>
                  var c := PreemptChoice(r, t).value;
                  && c < |s1.slots| && s1.slots[c].current.Some?
                  && ReplaceDefined(s1, c, t, k.runtime(Victim(s1, c))))
  {
    PlacementIsDefined(r, k);
    ChoiceIsPermitted(r, Head(r.s).value);
  }

  /** One turn of the placement loop. */
  ghost function PlaceOne(r: Round, k: Kernel): (r': Round)
    requires RoundInv(r, k) && Head(r.s).Some?
  {
    TurnIsDefined(r, k);
    var t := Head(r.s).value;
    var s1 := Dequeue(r.s);
    var picked := r.picked + [t];
    if t in k.stale then r.(s := Yield(s1, t), picked := picked)
    else if IdleChoice(r, t).Some? then
      var c := IdleChoice(r, t).value;
      r.(s := Assign(s1, c, t, k.submitTime(c)), avail := r.avail - {c}, picked := picked)
    else if PreemptChoice(r, t).Some? then
      var c := PreemptChoice(r, t).value;
      r.(s := ReplaceExistingTask(s1, c, t, c in k.commits, k.runtime(Victim(s1, c)), k.submitTime(c)),
         low := r.low - {c}, picked := picked,
         lost := if c in k.commits then r.lost else r.lost + {t})
    else r.(s := Yield(s1, t), picked := picked)
  }

  lemma YieldTurnKeeps(r: Round, k: Kernel)
    requires RoundInv(r, k) && Head(r.s).Some?
    ensures var t := Head(r.s).value;
            var s1 := Dequeue(r.s);
            && t in s1.tasks && s1.tasks[t].runState.Queued?
            && RoundInv(r.(s := Yield(s1, t)), k)
            && s1.cfg == r.s.cfg
            && |Yield(s1, t).runQ| + |Yield(s1, t).lowQ| == |r.s.runQ| + |r.s.lowQ| - 1
  {
    PlacementIsDefined(r, k);
    var t := Head(r.s).value;
    var s1 := Dequeue(r.s);
    assert {t} - {t} == {};
    YieldPutsBack(s1, {t}, t);
    assert forall x :: x in s1.tasks ==> Yield(s1, t).tasks[x].runtime == r.s.tasks[x].runtime;
  }

  lemma AssignTurnKeeps(r: Round, k: Kernel, c: CpuId)
    requires RoundInv(r, k) && Head(r.s).Some?
    requires Head(r.s).value in r.s.tasks && IdleChoice(r, Head(r.s).value) == Some(c)
    ensures var t := Head(r.s).value;
            var s1 := Dequeue(r.s);
            && c < |s1.slots| && s1.slots[c].next.None? && s1.slots[c].current.None?
            && t in s1.tasks && s1.tasks[t].runState.Queued?
            && var s2 := Assign(s1, c, t, k.submitTime(c));
               && RoundInv(r.(s := s2, avail := r.avail - {c}), k)
               && s2.cfg == r.s.cfg
               && |s2.runQ| + |s2.lowQ| == |r.s.runQ| + |r.s.lowQ| - 1
  {
    PlacementIsDefined(r, k);
    var t := Head(r.s).value;
    var s1 := Dequeue(r.s);
    ChoiceIsPermitted(r, t);
    AssignKeepsInv(s1, c, t, k.submitTime(c));
    var s2 := Assign(s1, c, t, k.submitTime(c));
    assert forall x :: x in s1.tasks ==> s2.tasks[x].runtime == r.s.tasks[x].runtime;
  }

  /** What a replacement leaves alone. */
  lemma ReplaceFrame(s: State, c: CpuId, next: TaskId, committed: bool, runtime: nat, now: int)
    requires ReplaceDefined(s, c, next, runtime) && Victim(s, c) != next
    ensures var s' := ReplaceExistingTask(s, c, next, committed, runtime, now);
            && s'.cfg == s.cfg && s'.globalCpu == s.globalCpu && |s'.slots| == |s.slots|
            && (forall d :: 0 <= d < |s.slots| && d != c ==> s'.slots[d] == s.slots[d])
            && s'.tasks.Keys == s.tasks.Keys
            && (forall x :: x in s.tasks && x != next && x != Victim(s, c) ==> s'.tasks[x] == s.tasks[x])
            && s'.tasks[next].runtime == s.tasks[next].runtime && s'.tasks[next].allowed == s.tasks[next].allowed
            && s'.tasks[Victim(s, c)].runtime <= runtime && s'.tasks[Victim(s, c)].allowed == s.tasks[Victim(s, c)].allowed
            && s'.tasks[next].runState == (if committed then OnCpu else Yielding)
            && s'.tasks[Victim(s, c)].runState.Queued?
            && s'.slots[c].current == (if committed then Some(next) else None)
            && |s'.runQ| + |s'.lowQ| == |s.runQ| + |s.lowQ| + 1
  {
  }

  lemma ReplaceTurnInv(r: Round, k: Kernel, c: CpuId)
    requires RoundInv(r, k) && Head(r.s).Some?
    requires Head(r.s).value in r.s.tasks && PreemptChoice(r, Head(r.s).value) == Some(c)
    ensures var t := Head(r.s).value;
            var s1 := Dequeue(r.s);
            && c < |s1.slots| && s1.slots[c].current.Some? && Victim(s1, c) != t
            && ReplaceDefined(s1, c, t, k.runtime(Victim(s1, c)))
            && Inv(ReplaceExistingTask(s1, c, t, c in k.commits, k.runtime(Victim(s1, c)), k.submitTime(c)))
  {
    PlacementIsDefined(r, k);
    var t := Head(r.s).value;
    var s1 := Dequeue(r.s);
    var runtime := k.runtime(Victim(s1, c));
    ChoiceIsPermitted(r, t);
    ReplaceIsDefined(s1, c, t, runtime);
    if c in k.commits {
      ReplaceCommittedKeepsInv(s1, c, t, runtime, k.submitTime(c));
    } else {
      ReplaceFailedKeepsInv(s1, c, t, runtime, k.submitTime(c));
    }
  }

  lemma ReplaceTurnReady(r: Round, k: Kernel, c: CpuId, s1: State, t: TaskId)
    requires CpusReady(s1, r.avail, r.low) && RuntimesGrow(s1, k)
    requires c in r.low && c < |s1.slots| && s1.slots[c].current.Some? && Victim(s1, c) != t
    requires ReplaceDefined(s1, c, t, k.runtime(Victim(s1, c)))
    ensures var s2 := ReplaceExistingTask(s1, c, t, c in k.commits, k.runtime(Victim(s1, c)), k.submitTime(c));
            && CpusReady(s2, r.avail, r.low - {c}) && RuntimesGrow(s2, k)
            && s2.cfg == s1.cfg
            && |s2.runQ| + |s2.lowQ| == |s1.runQ| + |s1.lowQ| + 1
  {
    var runtime := k.runtime(Victim(s1, c));
    ReplaceFrame(s1, c, t, c in k.commits, runtime, k.submitTime(c));
    var s2 := ReplaceExistingTask(s1, c, t, c in k.commits, runtime, k.submitTime(c));
    forall x | x in s2.tasks
      ensures s2.tasks[x].runtime <= k.runtime(x)
    {
      assert x in s1.tasks && s1.tasks[x].runtime <= k.runtime(x);
    }
  }

  lemma ReplaceTurnKeeps(r: Round, k: Kernel, c: CpuId)
    requires RoundInv(r, k) && Head(r.s).Some?
    requires Head(r.s).value in r.s.tasks && PreemptChoice(r, Head(r.s).value) == Some(c)
    ensures var t := Head(r.s).value;
            var s1 := Dequeue(r.s);
            && c < |s1.slots| && s1.slots[c].current.Some? && Victim(s1, c) != t
            && ReplaceDefined(s1, c, t, k.runtime(Victim(s1, c)))
            && var s2 := ReplaceExistingTask(s1, c, t, c in k.commits, k.runtime(Victim(s1, c)), k.submitTime(c));
               && RoundInv(r.(s := s2, low := r.low - {c}), k)
               && s2.cfg == r.s.cfg
               && |s2.runQ| + |s2.lowQ| == |r.s.runQ| + |r.s.lowQ|
  {
    ReplaceTurnInv(r, k, c);
    var t := Head(r.s).value;
    var s1 := Dequeue(r.s);
    ChoiceIsPermitted(r, t);
    assert CpusReady(s1, r.avail, r.low) && RuntimesGrow(s1, k);
    ReplaceTurnReady(r, k, c, s1, t);
  }

  /** Each turn keeps the invariant and shrinks CPUs plus queued tasks, although a victim is queued again. */
  lemma PlaceOneKeeps(r: Round, k: Kernel)
    requires RoundInv(r, k) && Head(r.s).Some?
    ensures var r' := PlaceOne(r, k);
            && RoundInv(r', k) && Measure(r') < Measure(r)
            && r'.avail <= r.avail && r'.low <= r.low && r'.s.cfg == r.s.cfg
  {
    PlacementIsDefined(r, k);
    var t := Head(r.s).value;
    if t in k.stale {
      YieldTurnKeeps(r, k);
    } else if IdleChoice(r, t).Some? {
      ChoiceIsPermitted(r, t);
      AssignTurnKeeps(r, k, IdleChoice(r, t).value);
    } else if PreemptChoice(r, t).Some? {
      ChoiceIsPermitted(r, t);
      ReplaceTurnKeeps(r, k, PreemptChoice(r, t).value);
    } else {
      YieldTurnKeeps(r, k);
    }
  }

  /** The placement loop. */
  ghost function PlaceAll(r: Round, k: Kernel): (r': Round)
    requires RoundInv(r, k)
    ensures RoundInv(r', k)
    ensures r'.avail <= r.avail && r'.low <= r.low && r'.s.cfg == r.s.cfg
    ensures (r'.avail == {} && r'.low == {}) || Head(r'.s).None?
    decreases Measure(r)
  {
    if (r.avail == {} && r.low == {}) || Head(r.s).None? then r
    else
      PlaceOneKeeps(r, k);
      PlaceAll(PlaceOne(r, k), k)
  }

  // ---------------------------------------------------------------- ending the round

  lemma UnyieldTakesOut(s: State)
    requires Inv(s) && s.yielding != []
    ensures var t := s.yielding[0];
            var s1 := s.(yielding := s.yielding[1..]);
            && t in s1.tasks && s1.tasks[t].runState.Yielding?
            && Placed(s1, {t}) && Flagged(s1, {t}) && Balanced(s1)
  {
    Aspects(s);
    var t := s.yielding[0];
    var s1 := s.(yielding := s.yielding[1..]);
    assert forall i :: 0 <= i < |s1.yielding| ==> s1.yielding[i] == s.yielding[i + 1];
    assert s.yielding == [t] + s1.yielding;
    QueueFrame(s, {}, s1, {t}, s.runQ);
    QueueFrame(s, {}, s1, {t}, s.lowQ);
    forall x | x in s1.tasks && x !in {t}
      ensures AtHome(s1, x)
    {
      assert AtHome(s, x);
    }
    forall c | 0 <= c < |s1.slots|
      ensures SlotOk(s1, {t}, c)
    {
      assert SlotOk(s, {}, c);
    }
    assert TaskFacts(s.cfg, s.clock, s.tasks[t]);
    FlaggedFrame(s, {}, s1, {t}, t);
  }

  lemma RequeueOneKeepsInv(s: State)
    requires Inv(s) && s.yielding != []
    ensures s.yielding[0] in s.tasks && s.tasks[s.yielding[0]].runState.Yielding?
    ensures Inv(Enqueue(s.(yielding := s.yielding[1..]), s.yielding[0]))
  {
    UnyieldTakesOut(s);
    var t := s.yielding[0];
    assert {t} - {t} == {};
    EnqueuePutsBack(s.(yielding := s.yielding[1..]), {t}, t);
  }

  /** Every yielding task goes back to its run queue. */
  ghost function Requeue(s: State): (s': State)
    requires Inv(s)
    ensures Inv(s') && s'.yielding == [] && s'.slots == s.slots && s'.tasks.Keys == s.tasks.Keys
    decreases |s.yielding|
  {
    if s.yielding == [] then s
    else
      RequeueOneKeepsInv(s);
      Requeue(Enqueue(s.(yielding := s.yielding[1..]), s.yielding[0]))
  }

  ghost function GlobalSchedule(s: State, k: Kernel): (s': State)
    requires Inv(s) && RuntimesGrow(s, k)
    ensures Inv(s') && s'.yielding == []
  {
    Requeue(PlaceAll(Scanned(s, k), k).s)
  }

  // ---------------------------------------------------------------- migration of the global agent

  /**
    What the kernel answers during a migration. `homeReady` holds the CPUs at whose turn of the search the
    home CPU is found available with its last request committed.
   */
  datatype MigrationKernel = MigrationKernel(
    available: set<CpuId>,
    committed: set<CpuId>,
    homeReady: set<CpuId>,
    txn: CpuId -> TxnState)

  /** The search for a CPU, in increasing order. */
  function Target(s: State, k: MigrationKernel, rest: set<CpuId>): (target: Option<CpuId>)
    requires forall c :: c in rest ==> c < |s.slots|
    ensures target.Some? ==> target.value != s.globalCpu && (target.value in rest || target.value == s.cfg.home)
    decreases |rest|
  {
    if rest == {} then None
    else
      var c := Front(rest);
      if s.cfg.home != s.globalCpu && c in k.homeReady then Some(s.cfg.home)
      else if s.slots[c].inSwitchto then Target(s, k, rest - {c})
      else if s.cfg.topology.numaNode(c) != s.cfg.topology.numaNode(s.cfg.home) then Target(s, k, rest - {c})
      else if c != s.globalCpu && c in k.available && c in k.committed then Some(c)
      else Target(s, k, rest - {c})
  }

  /** The agent may return home at the turn of c. */
  predicate HomeOffered(s: State, k: MigrationKernel, c: CpuId) {
    s.cfg.home != s.globalCpu && c in k.homeReady
  }

  /** The agent may move to c: off switchto, on the home NUMA node, another CPU, available and committed. */
  predicate Eligible(s: State, k: MigrationKernel, c: CpuId)
    requires c < |s.slots|
  {
    && !s.slots[c].inSwitchto && s.cfg.topology.numaNode(c) == s.cfg.topology.numaNode(s.cfg.home)
    && c != s.globalCpu && c in k.available && c in k.committed
  }

  /** The search stops at the first CPU that lets the agent go home or is eligible, and fails only without one. */
  lemma {:induction false} TargetIsFirst(s: State, k: MigrationKernel, rest: set<CpuId>)
    requires forall c :: c in rest ==> c < |s.slots|
    ensures var target := Target(s, k, rest);
            if target.None? then forall c :: c in rest ==> !HomeOffered(s, k, c) && !Eligible(s, k, c)
            else exists c :: c in rest
                   && (forall d :: d in rest && d < c ==> !HomeOffered(s, k, d) && !Eligible(s, k, d))
                   && (if HomeOffered(s, k, c) then target.value == s.cfg.home
                       else Eligible(s, k, c) && target.value == c)
    decreases |rest|
  {
    if rest != {} {
      var c := Front(rest);
      if !HomeOffered(s, k, c) && !Eligible(s, k, c) {
        TargetIsFirst(s, k, rest - {c});
        assert forall d :: d in rest ==> d == c || d in rest - {c};
      } else {
        assert forall d :: d in rest ==> c <= d;
      }
    }
  }

  /** The running task of c, if any, goes to the front of its queue. */
  function Vacate(s: State, c: CpuId): State
    requires c < |s.slots|
    requires s.slots[c].current.Some? ==> s.slots[c].current.value in s.tasks
  {
    if s.slots[c].current.None? then s
    else
      var prev := s.slots[c].current.value;
      Enqueue(SetBoost(PutSlot(s, c, s.slots[c].(current := None)), prev, true), prev)
  }

  lemma VacateKeepsInv(s: State, c: CpuId)
    requires Inv(s) && c < |s.slots| && s.slots[c].next.None?
    ensures s.slots[c].current.Some? ==> s.slots[c].current.value in s.tasks
    ensures var s' := Vacate(s, c);
            Inv(s') && s'.slots == s.slots[c := s.slots[c].(current := None)] && s'.globalCpu == s.globalCpu
  {
    Aspects(s);
    assert SlotOk(s, {}, c);
    if s.slots[c].current.Some? {
      var prev := s.slots[c].current.value;
      assert {} + {prev} == {prev} && {prev} - {prev} == {};
      ClearSlotTakesOut(s, {}, c, prev);
      var slot' := s.slots[c].(current := None, next := None);
      var s1 := PutSlot(s, c, slot');
      assert TaskFacts(s1.cfg, s1.clock, s1.tasks[prev]);
      OutTaskIsFree(s1, {prev}, prev, s1.tasks[prev].(prioBoost := true));
      EnqueuePutsBack(SetBoost(s1, prev, true), {prev}, prev);
      OpenUpdate(s.slots, c, slot');
    } else {
      assert s.slots == s.slots[c := s.slots[c].(current := None)];
    }
  }

  lemma SetGlobalKeepsInv(s: State, c: CpuId)
    requires Inv(s) && c in s.cfg.cpus && c < |s.slots|
    requires s.slots[c].current.None? && s.slots[c].next.None?
    ensures Inv(s.(globalCpu := c))
  {
    Aspects(s);
    var s' := s.(globalCpu := c);
    QueueFrame(s, {}, s', {}, s.runQ);
    QueueFrame(s, {}, s', {}, s.lowQ);
    YieldingFrame(s, {}, s', {});
    forall x | x in s'.tasks
      ensures AtHome(s', x)
    {
      assert AtHome(s, x);
    }
    forall d | 0 <= d < |s'.slots|
      ensures SlotOk(s', {}, d)
    {
      assert SlotOk(s, {}, d);
    }
  }

  lemma MigrateIsSafe(s: State, c: CpuId, txn: TxnState)
    requires Inv(s) && c in s.cfg.cpus && c < |s.slots|
    ensures SyncDefined(s, c)
    ensures var s1 := SyncCpuState(s, c, txn);
            && (s1.slots[c].current.Some? ==> s1.slots[c].current.value in s1.tasks)
            && Inv(Vacate(s1, c).(globalCpu := c))
  {
    SyncKeepsInv(s, c, txn);
    var s1 := SyncCpuState(s, c, txn);
    VacateKeepsInv(s1, c);
    SetGlobalKeepsInv(Vacate(s1, c), c);
  }

  ghost function PickNextGlobalCpu(s: State, k: MigrationKernel): (s': State)
    requires Inv(s)
    ensures Inv(s')
  {
    CpusHaveSlots(s);
    var target := Target(s, k, s.cfg.cpus);
    if target.None? then s
    else
      var c := target.value;
      MigrateIsSafe(s, c, k.txn(c));
      Vacate(SyncCpuState(s, c, k.txn(c)), c).(globalCpu := c)
  }
}
