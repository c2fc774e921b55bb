/** Priorities: when each run queue holds the tasks of one priority only, and who is never preempted. */
module SchedulerPriorities {
  import opened Options
  import opened CpuLists
  import opened SchedulerState
  import opened SchedulerInvariant
  import opened SchedulerSteps
  import opened SchedulerRound
  import opened SchedulerRuns

  /** The tasks of a queue have the given priority. */
  ghost predicate AllOf(tasks: map<TaskId, Task>, queue: seq<TaskId>, high: bool) {
    forall i :: 0 <= i < |queue| && queue[i] in tasks ==> tasks[queue[i]].highPriority == high
  }

  /** High priority tasks are queued in the one run queue, the others in the other one. */
  ghost predicate Separated(s: State) {
    AllOf(s.tasks, s.runQ, true) && AllOf(s.tasks, s.lowQ, false)
  }

  // ---------------------------------------------------------------- the small operations

  /** An update that leaves the priorities alone. */
  lemma PutKeeps(s: State, t: TaskId, task: Task)
    requires Separated(s) && t in s.tasks && task.highPriority == s.tasks[t].highPriority
    ensures Separated(PutTask(s, t, task))
  {
  }

  /** Enqueueing goes by the priority of the task, wherever it comes from. */
  lemma EnqueueSeparates(s: State, t: TaskId)
    requires Separated(s) && t in s.tasks
    ensures Separated(Enqueue(s, t))
  {
    var task, s' := s.tasks[t], Enqueue(s, t);
    var front := task.prioBoost || task.preempted;
    PutKeeps(s, t, s'.tasks[t]);
    PushKeeps(s'.tasks, s.runQ, t, front, true);
    PushKeeps(s'.tasks, s.lowQ, t, front, false);
  }

  lemma PushKeeps(tasks: map<TaskId, Task>, queue: seq<TaskId>, t: TaskId, front: bool, high: bool)
    requires AllOf(tasks, queue, high)
    ensures t in tasks && tasks[t].highPriority == high ==> AllOf(tasks, Push(queue, t, front), high)
  {
  }

  lemma DequeueSeparates(s: State)
    requires Separated(s)
    ensures Separated(Dequeue(s))
  {
  }

  lemma EraseKeepsAllOf(tasks: map<TaskId, Task>, queue: seq<TaskId>, t: TaskId, high: bool)
    requires AllOf(tasks, queue, high) && t in queue
    ensures AllOf(tasks, Erase(queue, t), high)
  {
  }

  lemma RemoveSeparates(s: State, t: TaskId, runState: RunState)
    requires Separated(s) && t in s.tasks && s.tasks[t].runState.Queued? && (t in s.runQ || t in s.lowQ)
    ensures Separated(RemoveFromRunqueue(s, t, runState))
  {
    if t in s.runQ {
      EraseKeepsAllOf(s.tasks, s.runQ, t, true);
      PutKeeps(s.(runQ := Erase(s.runQ, t)), t, s.tasks[t].(runState := runState));
    } else {
      EraseKeepsAllOf(s.tasks, s.lowQ, t, false);
      PutKeeps(s.(lowQ := Erase(s.lowQ, t)), t, s.tasks[t].(runState := runState));
    }
  }

  lemma SyncSeparates(s: State, c: CpuId, txn: TxnState)
    requires Separated(s) && SyncDefined(s, c)
    ensures Separated(SyncCpuState(s, c, txn))
  {
    if s.slots[c].next.Some? {
      var t := s.slots[c].next.value;
      var task := s.tasks[t];
      var s1 := PutSlot(s, c, s.slots[c].(next := None));
      if txn.Complete? {
        PutKeeps(s1, t, task.(runState := OnCpu, prioBoost := false, cpu := Some(c)));
      } else {
        PutKeeps(s1, t, task.(cpu := None, startSubmit := None));
        EnqueueSeparates(PutTask(s1, t, task.(cpu := None, startSubmit := None)), t);
      }
    }
  }

  lemma LeaveSeparates(s: State, t: TaskId, runtime: nat)
    requires Separated(s) && CpuStateOfDefined(s, t) && s.tasks[t].runtime <= runtime
    requires s.tasks[t].runState.Pending? ==>
               var slot := s.slots[s.tasks[t].cpu.value]; slot.next == Some(t) && slot.current == None
    ensures Separated(Leave(s, t, runtime)) && t in Leave(s, t, runtime).tasks
  {
    var s1 := UpdateRuntime(s, t, runtime);
    assert Separated(s1);
    if s.tasks[t].runState.Pending? {
      SyncSeparates(s1, s.tasks[t].cpu.value, Complete);
    }
  }

  // ---------------------------------------------------------------- messages

  lemma BlockedSeparates(s: State, m: Stopped)
    requires Inv(s) && Separated(s) && StoppedLegal(s, m) && StoppedDefined(s, m)
    ensures Separated(TaskBlocked(s, m))
  {
    var t, s1 := m.task, SetBoost(s, m.task, false);
    assert Separated(s1);
    if Scheduled(s, t) {
      LeaveSeparates(s1, t, m.runtime);
    } else if !m.fromSwitchto {
      RemoveSeparates(s1, t, Blocked);
    }
  }

  lemma PreemptedSeparates(s: State, m: Stopped)
    requires Inv(s) && Separated(s) && StoppedLegal(s, m) && StoppedDefined(s, m)
    ensures Separated(TaskPreempted(s, m))
  {
    var t, s1 := m.task, SetFlags(s, m.task, false, true);
    assert Separated(s1);
    if Scheduled(s, t) {
      LeaveSeparates(s1, t, m.runtime);
      EnqueueSeparates(Leave(s1, t, m.runtime), t);
    } else if m.fromSwitchto {
      assert Separated(LeaveSwitchto(s1, m));
      EnqueueSeparates(LeaveSwitchto(s1, m), t);
    }
  }

  lemma YieldSeparates(s: State, m: Stopped)
    requires Inv(s) && Separated(s) && StoppedLegal(s, m) && StoppedDefined(s, m)
    ensures Separated(TaskYield(s, m))
  {
    var t, s1 := m.task, SetBoost(s, m.task, false);
    assert Separated(s1);
    if Scheduled(s, t) {
      LeaveSeparates(s1, t, m.runtime);
    }
  }

  lemma SwitchtoSeparates(s: State, m: Stopped)
    requires Inv(s) && Separated(s) && SwitchtoLegal(s, m) && StoppedDefined(s, m)
    ensures Separated(TaskSwitchto(s, m))
  {
    var t, s1 := m.task, SetBoost(SetInSwitchto(s, m.cpu, true), m.task, false);
    assert Separated(s1);
    if Scheduled(s, t) {
      LeaveSeparates(s1, t, m.runtime);
    } else {
      RemoveSeparates(s1, t, Blocked);
    }
  }

  // ---------------------------------------------------------------- rounds and migrations

  lemma {:induction false} ScanSeparates(s: State, k: Kernel, rest: set<CpuId>)
    requires Inv(s) && rest <= s.cfg.cpus && RuntimesGrow(s, k) && Separated(s)
    ensures Separated(ScanState(s, k, rest))
    decreases |rest|
  {
    if rest != {} {
      var c := Front(rest);
      CpusHaveSlots(s);
      ScanCpuKeeps(s, k, c);
      if Reaps(s, k, c) {
        SyncSeparates(s, c, k.txn(c));
      }
      ScanSeparates(ScanCpu(s, k, c), k, rest - {c});
    }
  }

  lemma ReplaceSeparates(s: State, c: CpuId, next: TaskId, committed: bool, runtime: nat, now: int)
    requires Separated(s) && ReplaceDefined(s, c, next, runtime) && s.slots[c].current.value != next
    ensures Separated(ReplaceExistingTask(s, c, next, committed, runtime, now))
  {
    var prev := s.slots[c].current.value;
    var s1 := if committed then PreemptTask(s, prev, Some(next), runtime) else s;
    assert Separated(s1);
    var s2 := SetFlags(s1, prev, true, false);
    assert Separated(s2);
    EnqueueSeparates(s2, prev);
  }

  lemma PlaceOneSeparates(r: Round, k: Kernel)
    requires RoundInv(r, k) && Head(r.s).Some? && Separated(r.s)
    ensures Separated(PlaceOne(r, k).s)
  {
    TurnIsDefined(r, k);
    var t := Head(r.s).value;
    var s1 := Dequeue(r.s);
    DequeueSeparates(r.s);
    if t !in k.stale && IdleChoice(r, t).None? && PreemptChoice(r, t).Some? {
      var c := PreemptChoice(r, t).value;
      ReplaceTurnKeeps(r, k, c);
      ReplaceSeparates(s1, c, t, c in k.commits, k.runtime(Victim(s1, c)), k.submitTime(c));
    }
  }

  lemma {:induction false} PlaceAllSeparates(r: Round, k: Kernel)
    requires RoundInv(r, k) && Separated(r.s)
    ensures Separated(PlaceAll(r, k).s)
    decreases Measure(r)
  {
    if !((r.avail == {} && r.low == {}) || Head(r.s).None?) {
      PlaceOneSeparates(r, k);
      PlaceOneKeeps(r, k);
      PlaceAllSeparates(PlaceOne(r, k), k);
    }
  }

  lemma {:induction false} RequeueSeparates(s: State)
    requires Inv(s) && Separated(s)
    ensures Separated(Requeue(s))
    decreases |s.yielding|
  {
    if s.yielding != [] {
      RequeueOneKeepsInv(s);
      EnqueueSeparates(s.(yielding := s.yielding[1..]), s.yielding[0]);
      RequeueSeparates(Enqueue(s.(yielding := s.yielding[1..]), s.yielding[0]));
    }
  }

  lemma RoundSeparates(s: State, k: Kernel)
    requires Inv(s) && RuntimesGrow(s, k) && Separated(s)
    ensures Separated(GlobalSchedule(s, k))
  {
    Aspects(s);
    ScanSeparates(s, k, s.cfg.cpus);
    PlaceAllSeparates(Scanned(s, k), k);
    RequeueSeparates(PlaceAll(Scanned(s, k), k).s);
  }

  lemma MigrationSeparates(s: State, k: MigrationKernel)
    requires Inv(s) && Separated(s)
    ensures Separated(PickNextGlobalCpu(s, k))
  {
    CpusHaveSlots(s);
    var target := Target(s, k, s.cfg.cpus);
    if target.Some? {
      var c := target.value;
      MigrateIsSafe(s, c, k.txn(c));
      SyncSeparates(s, c, k.txn(c));
      var s1 := SyncCpuState(s, c, k.txn(c));
      if s1.slots[c].current.Some? {
        var prev := s1.slots[c].current.value;
        var s2 := SetBoost(PutSlot(s1, c, s1.slots[c].(current := None)), prev, true);
        assert Separated(s2);
        EnqueueSeparates(s2, prev);
      }
    }
  }

  // ---------------------------------------------------------------- the exact condition

  /** A new runnable task is queued by a flag that its priority then contradicts. */
  predicate Misqueues(e: Event) {
    e.New? && e.runnable && e.uninitialised != e.highPriority
  }

  lemma NewSeparatesIff(s: State, e: Event)
    requires Inv(s) && e.New? && Legal(s, e) && Separated(s)
    ensures Separated(Step(s, e)) <==> !Misqueues(e)
  {
    var t := e.task;
    Aspects(s);
    forall i | 0 <= i < |s.runQ|
      ensures s.runQ[i] != t
    {
      assert s.runQ[i] in s.tasks;
    }
    forall i | 0 <= i < |s.lowQ|
      ensures s.lowQ[i] != t
    {
      assert s.lowQ[i] in s.tasks;
    }
    var s' := Step(s, e);
    if e.runnable {
      if e.uninitialised {
        assert s'.runQ == s.runQ + [t] && s'.runQ[|s.runQ|] == t;
      } else {
        assert s'.lowQ == s.lowQ + [t] && s'.lowQ[|s.lowQ|] == t;
      }
    }
  }

  /**
    Separate queues stay separate under every event of the kernel, every round and every migration, if and
    only if the event is not a runnable new task whose uninitialised flag differs from its priority.
   */
  lemma StepSeparatesIff(s: State, e: Event)
    requires Inv(s) && Legal(s, e) && Separated(s)
    ensures Separated(Step(s, e)) <==> !Misqueues(e)
  {
    MessagesDefined(s, e);
    match e
    case New(_, _, _, _, _, _) => NewSeparatesIff(s, e);
    case Wakeup(t, deferrable) =>
      assert Separated(SetBoost(s, t, !deferrable));
      EnqueueSeparates(SetBoost(s, t, !deferrable), t);
    case Departed(_, _, _) =>
    case Dead(_) =>
    case Block(m) => BlockedSeparates(s, m);
    case Preempt(m) => PreemptedSeparates(s, m);
    case SchedYield(m) => YieldSeparates(s, m);
    case Switchto(m) => SwitchtoSeparates(s, m);
    case Schedule(k) => RoundSeparates(s, k);
    case Migrate(mk) => MigrationSeparates(s, mk);
  }

  /** A run without such an event keeps the queues separate. */
  lemma {:induction false} RunSeparates(s: State, events: seq<Event>)
    requires Inv(s) && LegalRun(s, events) && Separated(s)
    requires forall i :: 0 <= i < |events| ==> !Misqueues(events[i])
    ensures Separated(Run(s, events))
    decreases |events|
  {
    if events != [] {
      StepKeepsInv(s, events[0]);
      StepSeparatesIff(s, events[0]);
      RunSeparates(Step(s, events[0]), events[1..]);
    }
  }

  /** After any run without such events, the next event keeps the queues separate if and only if it is none. */
  lemma EveryRunSeparatesIff(s: State, events: seq<Event>, e: Event)
    requires Initial(s) && forall i :: 0 <= i < |events| ==> !Misqueues(events[i])
    ensures Inv(s)
    ensures LegalRun(s, events) ==>
              var s1 := Run(s, events);
              && Inv(s1) && Separated(s1)
              && (Legal(s1, e) ==> (Separated(Step(s1, e)) <==> !Misqueues(e)))
  {
    InitialKeepsInv(s);
    if LegalRun(s, events) {
      RunKeepsInv(s, events);
      RunSeparates(s, events);
      var s1 := Run(s, events);
      if Legal(s1, e) {
        StepSeparatesIff(s1, e);
      }
    }
  }

  /** A run of one event that puts a low priority task into the high priority queue. */
  lemma QueuesMayMix()
    ensures exists s: State, e: Event ::
              && Initial(s) && Inv(s) && LegalRun(s, [e])
              && !Separated(Run(s, [e]))
              && Run(s, [e]).runQ == [7] && 7 in Run(s, [e]).tasks && !Run(s, [e]).tasks[7].highPriority
  {
    var s := Fresh({0}, 1);
    var e := New(7, true, 0, {0}, true, false);
    InitialKeepsInv(s);
    assert {0} * s.cfg.cpus == {0};
    OneEvent(s, e);
    StepSeparatesIff(s, e);
    assert Run(s, [e]).runQ == [7];
  }

  // ---------------------------------------------------------------- what a round never preempts

  lemma {:induction false} ScanLeavesRunning(s: State, k: Kernel, rest: set<CpuId>, c: CpuId)
    requires Inv(s) && rest <= s.cfg.cpus && RuntimesGrow(s, k)
    requires c < |s.slots| && s.slots[c].current.Some?
    ensures c < |ScanState(s, k, rest).slots| && ScanState(s, k, rest).slots[c] == s.slots[c]
    decreases |rest|
  {
    if rest != {} {
      var d := Front(rest);
      CpusHaveSlots(s);
      ScanCpuKeeps(s, k, d);
      assert SlotOk(s, {}, c) by { Aspects(s); }
      ScanLeavesRunning(ScanCpu(s, k, d), k, rest - {d}, c);
    }
  }

  lemma PlaceOneLeaves(r: Round, k: Kernel, c: CpuId)
    requires RoundInv(r, k) && Head(r.s).Some?
    requires c < |r.s.slots| && c !in r.avail && c !in r.low
    ensures c < |PlaceOne(r, k).s.slots| && PlaceOne(r, k).s.slots[c] == r.s.slots[c]
  {
    TurnIsDefined(r, k);
    var t := Head(r.s).value;
    var s1 := Dequeue(r.s);
    ChoiceIsPermitted(r, t);
    if t !in k.stale && IdleChoice(r, t).None? && PreemptChoice(r, t).Some? {
      var d := PreemptChoice(r, t).value;
      ReplaceTurnKeeps(r, k, d);
      ReplaceFrame(s1, d, t, d in k.commits, k.runtime(Victim(s1, d)), k.submitTime(d));
    }
  }

  lemma {:induction false} PlaceAllLeaves(r: Round, k: Kernel, c: CpuId)
    requires RoundInv(r, k) && c < |r.s.slots| && c !in r.avail && c !in r.low
    ensures c < |PlaceAll(r, k).s.slots| && PlaceAll(r, k).s.slots[c] == r.s.slots[c]
    decreases Measure(r)
  {
    if !((r.avail == {} && r.low == {}) || Head(r.s).None?) {
      PlaceOneLeaves(r, k, c);
      PlaceOneKeeps(r, k);
      PlaceAllLeaves(PlaceOne(r, k), k, c);
    }
  }

  /**
    A task that runs when a round begins still runs on its CPU when the round ends, whatever its priority
    and whoever waits: its CPU is neither idle nor a candidate for preemption.
   */
  lemma RunningIsNeverPreempted(s: State, k: Kernel, c: CpuId)
    requires Inv(s) && RuntimesGrow(s, k) && c < |s.slots| && s.slots[c].current.Some?
    ensures !IsIdle(s, k, c) && !IsPreemptable(s, k, c)
    ensures c < |GlobalSchedule(s, k).slots| && GlobalSchedule(s, k).slots[c] == s.slots[c]
  {
    Aspects(s);
    ScanLeavesRunning(s, k, s.cfg.cpus, c);
    PlaceAllLeaves(Scanned(s, k), k, c);
  }

  lemma {:induction false} ScanOfBusyCpus(s: State, k: Kernel, rest: set<CpuId>)
    requires Inv(s) && rest <= s.cfg.cpus && RuntimesGrow(s, k)
    requires forall c :: c in rest && c < |s.slots| ==> c == s.globalCpu || s.slots[c].current.Some?
    ensures ScanState(s, k, rest) == s
    decreases |rest|
  {
    if rest != {} {
      var c := Front(rest);
      CpusHaveSlots(s);
      assert SlotOk(s, {}, c) by { Aspects(s); }
      ScanOfBusyCpus(s, k, rest - {c});
    }
  }

  /** When a task runs on every CPU but the agent's own, a round only requeues the yielding tasks. */
  lemma BusyRound(s: State, k: Kernel)
    requires Inv(s) && RuntimesGrow(s, k)
    requires forall c :: c in s.cfg.cpus && c < |s.slots| ==> c == s.globalCpu || s.slots[c].current.Some?
    ensures GlobalSchedule(s, k) == Requeue(s)
  {
    Aspects(s);
    ScanOfBusyCpus(s, k, s.cfg.cpus);
    var r := Scanned(s, k);
    assert r.avail == {} && r.low == {};
  }

  /** Task 7, of low priority, runs on CPU 1, and task 8, of high priority, waits for that CPU. */
  ghost function OneRunsOneWaits(): State {
    Fresh({0, 1}, 2).(
      tasks := map[7 := Task(OnCpu, Some(1), false, false, false, {1}, Some(0), 0, 0, 0),
                   8 := Task(Queued, None, false, false, true, {1}, None, 0, 0, 1)],
      slots := [IDLE_SLOT, IDLE_SLOT.(current := Some(7))],
      runQ := [8], numTasks := 2, clock := 1)
  }

  lemma OneRunsIsPlaced(s: State)
    requires s == OneRunsOneWaits()
    ensures Placed(s, {})
  {
    assert QueuesOk(s, {}) && YieldingOk(s, {});
    assert SlotOk(s, {}, 0) && SlotOk(s, {}, 1);
    assert AtHome(s, 7) && AtHome(s, 8);
    assert |s.tasks| == 2;
  }

  lemma OneRunsIsFlagged(s: State)
    requires s == OneRunsOneWaits()
    ensures Flagged(s, {}) && Balanced(s)
  {
    assert OpenCpus(s.slots) == {};
    assert TaskFacts(s.cfg, 1, s.tasks[7]) && TaskFacts(s.cfg, 1, s.tasks[8]);
  }

  lemma OneRunsIsSound(s: State)
    requires s == OneRunsOneWaits()
    ensures Inv(s)
  {
    OneRunsIsPlaced(s);
    OneRunsIsFlagged(s);
    Aspects(s);
  }

  /**
    The round changes nothing, whatever the kernel answers: also when CPU 1 is available and committed,
    task 7 is not memcached and task 8 is ready to run there.
   */
  lemma HighPriorityMayWait(s: State, k: Kernel)
    requires s == OneRunsOneWaits() && RuntimesGrow(s, k)
    ensures Inv(s) && Separated(s) && GlobalSchedule(s, k) == s
  {
    OneRunsIsSound(s);
    BusyRound(s, k);
  }
}
