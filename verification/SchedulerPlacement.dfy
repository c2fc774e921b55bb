/** Which CPU a round gives to which task, and when a running task loses its own. */
module SchedulerPlacement {
  import opened Options
  import opened CpuLists
  import opened SchedulerState
  import opened SchedulerInvariant
  import opened SchedulerSteps
  import opened SchedulerRound
  import opened SchedulerPriorities
  import opened SchedulerEffects

  /** The affinity of t, if it is enforced, permits c. */
  ghost predicate MayUse(s: State, t: TaskId, c: CpuId)
    requires t in s.tasks
  {
    s.cfg.enforceAffinity ==> c in s.tasks[t].allowed
  }

  /** Of the CPUs that t may use, c is the closest to the one it last ran on, and the lowest numbered of these. */
  ghost predicate Closest(s: State, t: TaskId, cpus: set<CpuId>, c: CpuId)
    requires t in s.tasks
  {
    && c in cpus && MayUse(s, t, c)
    && forall d :: d in cpus && MayUse(s, t, d) ==>
         var near, far := Distance(s.cfg.topology, s.tasks[t].cpu, c), Distance(s.cfg.topology, s.tasks[t].cpu, d);
         near < far || (near == far && c <= d)
  }

  lemma ChoiceIsClosest(r: Round, t: TaskId)
    requires t in r.s.tasks
    ensures IdleChoice(r, t).Some? ==> Closest(r.s, t, r.avail, IdleChoice(r, t).value)
    ensures IdleChoice(r, t).None? ==> forall c :: c in r.avail ==> !MayUse(r.s, t, c)
    ensures PreemptChoice(r, t).Some? ==> Closest(r.s, t, r.low, PreemptChoice(r, t).value)
    ensures PreemptChoice(r, t).None? ==> forall c :: c in r.low ==> !MayUse(r.s, t, c)
  {
    var task, enforce := r.s.tasks[t], r.s.cfg.enforceAffinity;
    assert forall c :: c in r.avail && MayUse(r.s, t, c) ==> c in Permitted(r.avail, task.allowed, enforce);
    assert forall c :: c in r.low && MayUse(r.s, t, c) ==> c in Permitted(r.low, task.allowed, enforce);
  }

  // ---------------------------------------------------------------- one turn

  /** What is left of the queues without the head, and with a task that was put in front of them. */
  ghost predicate QueuesAre(s: State, s': State, first: seq<TaskId>, high: bool) {
    && s'.runQ == (if high then first else []) + (if s.runQ != [] then s.runQ[1..] else [])
    && s'.lowQ == (if high then [] else first) + (if s.runQ == [] && s.lowQ != [] then s.lowQ[1..] else s.lowQ)
  }

  ghost predicate Ready(r: Round, k: Kernel, t: TaskId) {
    RoundInv(r, k) && Head(r.s) == Some(t) && t in r.s.tasks
  }

  lemma HeadIsReady(r: Round, k: Kernel)
    requires RoundInv(r, k) && Head(r.s).Some?
    ensures Ready(r, k, Head(r.s).value)
  {
    TurnIsDefined(r, k);
  }

  /** Task t is the next one of the idle CPU c. */
  ghost predicate Assigned(r: Round, k: Kernel, t: TaskId, c: CpuId, r': Round)
    requires t in r.s.tasks
  {
    var task := r.s.tasks[t];
    && Closest(r.s, t, r.avail, c) && r'.avail == r.avail - {c} && r'.low == r.low && r'.lost == r.lost
    && c < |r.s.slots| && OnlyCpu(r.s, r'.s, c, CpuState(None, Some(t), r.s.slots[c].inSwitchto))
    && r'.s.tasks == r.s.tasks[t := task.(runState := Pending, cpu := Some(c), startSubmit := Some(k.submitTime(c)),
                                          prioBoost := task.prioBoost || task.preempted, preempted := false)]
    && QueuesAre(r.s, r'.s, [], true) && r'.s.yielding == r.s.yielding && SameMachine(r.s, r'.s)
    && r'.picked == r.picked + [t]
  }

  /**
    A ready task that may use some idle CPU becomes the next task of the closest one, and no running task
    is disturbed.
   */
  lemma IdleCpuComesFirst(r: Round, k: Kernel, t: TaskId, idle: CpuId)
    requires Ready(r, k, t) && t !in k.stale && idle in r.avail && MayUse(r.s, t, idle)
    ensures exists c :: Assigned(r, k, t, c, PlaceOne(r, k))
  {
    TurnIsDefined(r, k);
    ChoiceIsClosest(r, t);
    var c := IdleChoice(r, t).value;
    AssignEffect(Dequeue(r.s), c, t, k.submitTime(c));
    assert CpusReady(r.s, r.avail, r.low);
    assert Assigned(r, k, t, c, PlaceOne(r, k));
  }

  /** The task of c is put in front of its queue, and t runs instead or, if the kernel refuses, waits. */
  ghost predicate Displaces(r: Round, k: Kernel, t: TaskId, c: CpuId, r': Round)
    requires t in r.s.tasks
  {
    && Closest(r.s, t, r.low, c) && r'.avail == r.avail && r'.low == r.low - {c}
    && c < |r.s.slots| && r.s.slots[c].current.Some?
    && var victim := r.s.slots[c].current.value;
       && victim != t && victim in r.s.tasks && r.s.tasks[victim].runtime <= k.runtime(victim)
       && OnlyCpu(r.s, r'.s, c, CpuState(if c in k.commits then Some(t) else None, None, r.s.slots[c].inSwitchto))
       && victim in r'.s.tasks
       && r'.s.tasks == r.s.tasks[victim := VictimOf(r.s.tasks[victim], c in k.commits, k.runtime(victim))
                                              .(stamp := r'.s.tasks[victim].stamp)]
                                 [t := SuccessorOf(r.s.tasks[t], c, c in k.commits, k.submitTime(c))]
       && QueuesAre(r.s, r'.s, [victim], r.s.tasks[victim].highPriority) && SameMachine(r.s, r'.s)
       && r'.s.yielding == (if c in k.commits then r.s.yielding else r.s.yielding + [t])
       && r'.lost == (if c in k.commits then r.lost else r.lost + {t}) && r'.picked == r.picked + [t]
  }

  lemma DisplacementEffect(r: Round, k: Kernel, t: TaskId, c: CpuId)
    requires Ready(r, k, t) && PreemptChoice(r, t) == Some(c)
    requires c < |r.s.slots| && r.s.slots[c].current.Some? && r.s.slots[c].next.None? && r.s.slots[c].current.value != t
    requires var s1 := Dequeue(r.s);
             && s1.slots == r.s.slots && s1.tasks == r.s.tasks
             && ReplaceDefined(s1, c, t, k.runtime(Victim(s1, c)))
    ensures var s1 := Dequeue(r.s);
            var s2 := ReplaceExistingTask(s1, c, t, c in k.commits, k.runtime(Victim(s1, c)), k.submitTime(c));
            Displaces(r, k, t, c, Round(s2, r.avail, r.low - {c}, if c in k.commits then r.lost else r.lost + {t},
                                        r.picked + [t]))
  {
    ChoiceIsClosest(r, t);
    var s1 := Dequeue(r.s);
    ReplaceEffect(s1, c, t, c in k.commits, k.runtime(Victim(s1, c)), k.submitTime(c));
  }

  /** A task that may use no idle CPU displaces the task of the closest preemptable one. */
  lemma PreemptionComesSecond(r: Round, k: Kernel, t: TaskId, low: CpuId)
    requires Ready(r, k, t) && t !in k.stale && low in r.low && MayUse(r.s, t, low)
    requires forall c :: c in r.avail ==> !MayUse(r.s, t, c)
    ensures exists c :: Displaces(r, k, t, c, PlaceOne(r, k))
  {
    TurnIsDefined(r, k);
    ChoiceIsClosest(r, t);
    var c := PreemptChoice(r, t).value;
    ReplaceTurnInv(r, k, c);
    assert r.s.slots[c].next.None? by {
      Aspects(r.s);
      assert SlotOk(r.s, {}, c);
    }
    DisplacementEffect(r, k, t, c);
    assert Displaces(r, k, t, c, PlaceOne(r, k));
  }

  /** A task that is stale, or may use no CPU that is left, waits for the next round and nothing else happens. */
  lemma OthersWait(r: Round, k: Kernel, t: TaskId)
    requires Ready(r, k, t)
    requires t in k.stale || forall c :: c in r.avail || c in r.low ==> !MayUse(r.s, t, c)
    ensures var r' := PlaceOne(r, k);
            && r'.avail == r.avail && r'.low == r.low && r'.lost == r.lost && r'.picked == r.picked + [t]
            && r'.s.slots == r.s.slots && r'.s.tasks == r.s.tasks[t := r.s.tasks[t].(runState := Yielding)]
            && QueuesAre(r.s, r'.s, [], true) && r'.s.yielding == r.s.yielding + [t] && SameMachine(r.s, r'.s)
  {
    TurnIsDefined(r, k);
    ChoiceIsClosest(r, t);
  }

  // ---------------------------------------------------------------- the turns of a round

  ghost predicate Over(r: Round) {
    (r.avail == {} && r.low == {}) || Head(r.s).None?
  }

  /** The round after n turns, or after all of them if there are fewer. */
  ghost function After(r: Round, k: Kernel, n: nat): (r': Round)
    requires RoundInv(r, k)
    ensures RoundInv(r', k)
    decreases n
  {
    if n == 0 || Over(r) then r
    else
      PlaceOneKeeps(r, k);
      After(PlaceOne(r, k), k, n - 1)
  }

  lemma {:induction false} TurnsMakeTheRound(r: Round, k: Kernel) returns (n: nat)
    requires RoundInv(r, k)
    ensures After(r, k, n) == PlaceAll(r, k)
    decreases Measure(r)
  {
    if Over(r) {
      n := 0;
    } else {
      PlaceOneKeeps(r, k);
      var m := TurnsMakeTheRound(PlaceOne(r, k), k);
      n := m + 1;
    }
  }

  /** At turn n the task t takes CPU c over from a running task, having no idle CPU that it may use. */
  ghost predicate TakesOver(r: Round, k: Kernel, n: nat, t: TaskId, c: CpuId)
    requires RoundInv(r, k)
  {
    var r1 := After(r, k, n);
    && !Over(r1) && Head(r1.s) == Some(t) && t in r1.s.tasks && t !in k.stale
    && (forall d :: d in r1.avail ==> !MayUse(r1.s, t, d))
    && Displaces(r1, k, t, c, PlaceOne(r1, k))
  }

  /** What one turn can do to a CPU of the preemptable ones. */
  lemma TurnOnLow(r: Round, k: Kernel, c: CpuId)
    requires RoundInv(r, k) && !Over(r) && c in r.low
    ensures var t := Head(r.s).value;
            && t in r.s.tasks
            && var r' := PlaceOne(r, k);
               || (c in r'.low && c !in r'.avail && c < |r'.s.slots| && c < |r.s.slots| && r'.s.slots[c] == r.s.slots[c])
               || (&& t !in k.stale && (forall d :: d in r.avail ==> !MayUse(r.s, t, d))
                   && Displaces(r, k, t, c, r'))
  {
    HeadIsReady(r, k);
    var t := Head(r.s).value;
    if t in k.stale || forall d :: d in r.avail || d in r.low ==> !MayUse(r.s, t, d) {
      OthersWait(r, k, t);
    } else if idle :| idle in r.avail && MayUse(r.s, t, idle) {
      IdleCpuComesFirst(r, k, t, idle);
      var d :| Assigned(r, k, t, d, PlaceOne(r, k));
      AssignedLeavesLow(r, k, t, d, PlaceOne(r, k), c);
    } else {
      var low :| low in r.low && MayUse(r.s, t, low);
      PreemptionComesSecond(r, k, t, low);
      var d :| Displaces(r, k, t, d, PlaceOne(r, k));
      if d != c {
        DisplacedLeavesLow(r, k, t, d, PlaceOne(r, k), c);
      }
    }
  }

  lemma AssignedLeavesLow(r: Round, k: Kernel, t: TaskId, d: CpuId, r': Round, c: CpuId)
    requires t in r.s.tasks && Assigned(r, k, t, d, r') && CpusReady(r.s, r.avail, r.low) && c in r.low
    ensures c in r'.low && c !in r'.avail && c < |r'.s.slots| && c < |r.s.slots| && r'.s.slots[c] == r.s.slots[c]
  {
  }

  lemma DisplacedLeavesLow(r: Round, k: Kernel, t: TaskId, d: CpuId, r': Round, c: CpuId)
    requires t in r.s.tasks && Displaces(r, k, t, d, r') && CpusReady(r.s, r.avail, r.low) && c in r.low && c != d
    ensures c in r'.low && c !in r'.avail && c < |r'.s.slots| && c < |r.s.slots| && r'.s.slots[c] == r.s.slots[c]
  {
  }

  lemma {:induction false} LosersInPlacement(r: Round, k: Kernel, c: CpuId) returns (n: nat, t: TaskId)
    requires RoundInv(r, k) && c in r.low && c < |r.s.slots|
    ensures var s' := PlaceAll(r, k).s;
            && c < |s'.slots|
            && (|| s'.slots[c] == r.s.slots[c]
                || (&& TakesOver(r, k, n, t, c)
                    && s'.slots[c].current == (if c in k.commits then Some(t) else None)))
    decreases Measure(r)
  {
    n, t := 0, 0;
    if !Over(r) {
      TurnOnLow(r, k, c);
      PlaceOneKeeps(r, k);
      var r1 := PlaceOne(r, k);
      if c in r1.low {
        n, t := LosersInPlacement(r1, k, c);
        n := n + 1;
      } else {
        t := Head(r.s).value;
        assert c !in r1.avail by { assert CpusReady(r.s, r.avail, r.low); }
        PlaceAllLeaves(r1, k, c);
        assert After(r, k, 0) == r;
      }
    }
  }

  // ---------------------------------------------------------------- the scan

  /** Whether the kernel has completed the last transaction of c. */
  ghost predicate Committed(s: State, k: Kernel, c: CpuId)
    requires c < |s.slots|
  {
    c in k.committed && s.slots[c].next.Some?
  }

  ghost function ReapedSlot(s: State, k: Kernel, c: CpuId): CpuState
    requires c < |s.slots|
  {
    var slot := s.slots[c];
    if Committed(s, k, c) then CpuState(if k.txn(c).Complete? then slot.next else None, None, slot.inSwitchto) else slot
  }

  lemma ScanCpuReaps(s: State, k: Kernel, c: CpuId)
    requires Inv(s) && c < |s.slots|
    ensures SyncDefined(s, c) && |ScanCpu(s, k, c).slots| == |s.slots| && ScanCpu(s, k, c).slots[c] == ReapedSlot(s, k, c)
  {
    SyncEffect(s, c, k.txn(c));
    assert SlotOk(s, {}, c) by { Aspects(s); }
  }

  /** The scan reaps every committed transaction, also on a CPU that was lost, and changes no other slot. */
  lemma {:induction false} ScanReaps(s: State, k: Kernel, rest: set<CpuId>, c: CpuId)
    requires Inv(s) && rest <= s.cfg.cpus && RuntimesGrow(s, k) && c < |s.slots|
    ensures var s' := ScanState(s, k, rest);
            c < |s'.slots| && s'.slots[c] == if c in rest then ReapedSlot(s, k, c) else s.slots[c]
    decreases |rest|
  {
    if rest != {} {
      var d := Front(rest);
      CpusHaveSlots(s);
      ScanCpuKeeps(s, k, d);
      ScanCpuReaps(s, k, d);
      var s1 := ScanCpu(s, k, d);
      ScanReaps(s1, k, rest - {d}, c);
      if c != d {
        assert s1.slots[c] == s.slots[c] && ReapedSlot(s1, k, c) == ReapedSlot(s, k, c);
      }
    }
  }

  /** After the scan a CPU is idle if it is available, committed and empty, and is not the agent's own. */
  lemma IdleMeans(s: State, k: Kernel, c: CpuId)
    requires Inv(s) && RuntimesGrow(s, k) && c in s.cfg.cpus
    ensures c < |s.slots|
    ensures c in Scanned(s, k).avail <==>
            && c in k.available && c in k.committed && c != s.globalCpu
            && ReapedSlot(s, k, c) == CpuState(None, None, false)
  {
    CpusHaveSlots(s);
    Aspects(s);
    assert SlotOk(s, {}, c);
  }

  /**
    A CPU is preemptable if it is available and its task was reaped just now, unless that is a memcached
    task that was not drawn or has been running for 300 microseconds or less.
   */
  lemma PreemptableMeans(s: State, k: Kernel, c: CpuId)
    requires Inv(s) && RuntimesGrow(s, k) && c in s.cfg.cpus
    ensures c < |s.slots|
    ensures c in Scanned(s, k).low <==>
            && c in k.available && Committed(s, k, c) && k.txn(c).Complete?
            && !Spared(s, k, c, s.slots[c].next.value)
  {
    CpusHaveSlots(s);
    Aspects(s);
    assert SlotOk(s, {}, c);
    if s.slots[c].next.Some? {
      assert TaskFlags(s.cfg, s.tasks[s.slots[c].next.value]);
    }
  }

  ghost predicate Spared(s: State, k: Kernel, c: CpuId, t: TaskId) {
    && t in k.memcached && t in s.tasks
    && (c !in k.draw || s.tasks[t].startSubmit.None? || k.scanTime(c) - s.tasks[t].startSubmit.value <= 300)
  }

  // ---------------------------------------------------------------- what a round does to a CPU

  /** A CPU that is neither idle nor preemptable is left as the scan found it. */
  lemma RoundLeaves(s: State, k: Kernel, c: CpuId)
    requires Inv(s) && RuntimesGrow(s, k) && c in s.cfg.cpus
    requires c !in Scanned(s, k).avail && c !in Scanned(s, k).low
    ensures c < |s.slots| && c < |GlobalSchedule(s, k).slots|
    ensures GlobalSchedule(s, k).slots[c] == ReapedSlot(s, k, c)
  {
    CpusHaveSlots(s);
    ScanReaps(s, k, s.cfg.cpus, c);
    PlaceAllLeaves(Scanned(s, k), k, c);
  }

  /** A spared memcached task keeps its CPU through the round. */
  lemma SparedKeepsItsCpu(s: State, k: Kernel, c: CpuId)
    requires Inv(s) && RuntimesGrow(s, k) && c in s.cfg.cpus && c < |s.slots|
    requires Committed(s, k, c) && k.txn(c).Complete? && Spared(s, k, c, s.slots[c].next.value)
    ensures c < |GlobalSchedule(s, k).slots|
    ensures GlobalSchedule(s, k).slots[c] == CpuState(s.slots[c].next, None, s.slots[c].inSwitchto)
  {
    IdleMeans(s, k, c);
    PreemptableMeans(s, k, c);
    RoundLeaves(s, k, c);
  }

  /** On a CPU that was lost to another scheduling class a committed transaction is reaped, and nothing is placed. */
  lemma LostCpuIsReaped(s: State, k: Kernel, c: CpuId)
    requires Inv(s) && RuntimesGrow(s, k) && c in s.cfg.cpus && c !in k.available
    ensures c < |s.slots| && c < |GlobalSchedule(s, k).slots|
    ensures GlobalSchedule(s, k).slots[c] == ReapedSlot(s, k, c)
  {
    IdleMeans(s, k, c);
    PreemptableMeans(s, k, c);
    RoundLeaves(s, k, c);
  }

  /**
    A task that has got its CPU by a transaction reaped in this round loses it again in the same round only
    to a task that may use no idle CPU when its turn comes, and never if it is spared.
   */
  lemma LosesOnlyWithoutIdleCpu(s: State, k: Kernel, c: CpuId) returns (n: nat, t: TaskId)
    requires Inv(s) && RuntimesGrow(s, k) && c in s.cfg.cpus && c < |s.slots|
    requires Committed(s, k, c) && k.txn(c).Complete?
    ensures var s' := GlobalSchedule(s, k);
            && c < |s'.slots|
            && (|| s'.slots[c] == CpuState(s.slots[c].next, None, s.slots[c].inSwitchto)
                || (&& !Spared(s, k, c, s.slots[c].next.value) && TakesOver(Scanned(s, k), k, n, t, c)
                    && s'.slots[c].current == (if c in k.commits then Some(t) else None)))
  {
    n, t := 0, 0;
    PreemptableMeans(s, k, c);
    ScanReaps(s, k, s.cfg.cpus, c);
    if c in Scanned(s, k).low {
      n, t := LosersInPlacement(Scanned(s, k), k, c);
    } else {
      IdleMeans(s, k, c);
      RoundLeaves(s, k, c);
    }
  }
}
