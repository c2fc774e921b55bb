/** Every operation of the scheduler keeps the invariant, and so never fails one of the agent's own CHECKs. */
module SchedulerSteps {
  import opened Options
  import opened CpuLists
  import opened SchedulerState
  import opened SchedulerInvariant

  // ---------------------------------------------------------------- transactions

  lemma SyncIsDefined(s: State, c: CpuId)
    requires Inv(s) && c < |s.slots|
    ensures SyncDefined(s, c)
    ensures s.slots[c].next.Some? ==>
              && c in s.cfg.cpus && c != s.globalCpu
              && s.tasks[s.slots[c].next.value].runState.Pending?
              && s.slots[c].current.None?
  {
    Aspects(s);
    assert SlotOk(s, {}, c);
  }

  lemma SyncKeepsInv(s: State, c: CpuId, txn: TxnState)
    requires Inv(s) && c < |s.slots|
    ensures SyncDefined(s, c)
    ensures var s' := SyncCpuState(s, c, txn);
            && Inv(s')
            && s'.slots == s.slots[c := s'.slots[c]]
            && s'.slots[c].next.None?
            && s'.slots[c].inSwitchto == s.slots[c].inSwitchto
            && (s.slots[c].next.Some? ==>
                  var t := s.slots[c].next.value;
                  t in s'.tasks && if txn.Complete? then s'.slots[c].current == Some(t) else s'.tasks[t].runState.Queued?)
  {
    Aspects(s);
    SyncIsDefined(s, c);
    var s' := SyncCpuState(s, c, txn);
    var slot := s.slots[c];
    if slot.next.Some? {
      var t := slot.next.value;
      var task := s.tasks[t];
      assert {} + {t} == {t} && {t} - {t} == {};
      ClearSlotTakesOut(s, {}, c, t);
      var s1 := PutSlot(s, c, slot.(current := None, next := None));
      assert TaskFacts(s.cfg, s.clock, task) && TaskFlags(s.cfg, task);
      if txn.Complete? {
        var slot' := slot.(next := None, current := Some(t));
        var task' := task.(runState := OnCpu, prioBoost := false, cpu := Some(c));
        FillSlotPutsBack(s1, {t}, c, t, task', slot');
        assert s1.slots[c := slot'] == s.slots[c := slot'];
        OpenUpdate(s.slots, c, slot');
        assert s' == PutTask(PutSlot(s1, c, slot'), t, task').(counters := s'.counters);
        KeepsUnderCounters(PutTask(PutSlot(s1, c, slot'), t, task'), {}, s'.counters);
      } else {
        var task' := task.(cpu := None, startSubmit := None);
        OutTaskIsFree(s1, {t}, t, task');
        EnqueuePutsBack(PutTask(s1, t, task'), {t}, t);
        OpenUpdate(s.slots, c, s1.slots[c]);
        KeepsUnderCounters(Enqueue(PutTask(s1, t, task'), t), {}, s'.counters);
      }
    } else {
      assert s.slots == s.slots[c := s.slots[c]];
    }
  }

  /** Placement does not depend on the counters. */
  lemma KeepsUnderCounters(s: State, out: set<TaskId>, counters: Counters)
    requires Placed(s, out) && Flagged(s, out)
    ensures var s' := s.(counters := counters);
            Placed(s', out) && Flagged(s', out)
  {
    var s' := s.(counters := counters);
    assert Unmoved(s, out, s', out);
    QueueFrame(s, out, s', out, s.runQ);
    QueueFrame(s, out, s', out, s.lowQ);
    YieldingFrame(s, out, s', out);
    SlotsFrame(s, out, s', out);
    HomesFrame(s, out, s', out);
  }

  lemma AssignKeepsInv(s: State, c: CpuId, t: TaskId, now: int)
    requires Placed(s, {t}) && Flagged(s, {t}) && Balanced(s)
    requires t in s.tasks && s.tasks[t].runState.Queued?
    requires c in s.cfg.cpus && c < |s.slots| && c != s.globalCpu
    requires s.slots[c].current.None? && s.slots[c].next.None?
    requires s.cfg.enforceAffinity ==> c in s.tasks[t].allowed
    ensures Inv(Assign(s, c, t, now)) && Assign(s, c, t, now).slots[c].next == Some(t)
  {
    var s' := Assign(s, c, t, now);
    var slot' := s.slots[c].(next := Some(t));
    assert TaskFacts(s.cfg, s.clock, s.tasks[t]);
    assert {t} - {t} == {};
    FillSlotPutsBack(s, {t}, c, t, s'.tasks[t], slot');
    OpenUpdate(s.slots, c, slot');
    KeepsUnderCounters(PutTask(PutSlot(s, c, slot'), t, s'.tasks[t]), {}, s'.counters);
  }

  // ---------------------------------------------------------------- replacement of a running task

  lemma ReplaceIsDefined(s: State, c: CpuId, next: TaskId, runtime: nat)
    requires Placed(s, {next})
    requires next in s.tasks && s.tasks[next].runState.Queued?
    requires c < |s.slots| && s.slots[c].current.Some?
    requires s.slots[c].current.value in s.tasks ==> s.tasks[s.slots[c].current.value].runtime <= runtime
    ensures ReplaceDefined(s, c, next, runtime)
    ensures s.slots[c].current.value != next
    ensures c in s.cfg.cpus && c != s.globalCpu && s.slots[c].next.None?
  {
    assert SlotOk(s, {next}, c);
  }

  /** Updates of two tasks in either order. */
  lemma PutEitherOrder(tasks: map<TaskId, Task>, t: TaskId, task: Task, u: TaskId, other: Task)
    requires t != u
    ensures tasks[t := task][u := other] == tasks[u := other][t := task]
  {
  }

  lemma PutAgain(tasks: map<TaskId, Task>, t: TaskId, task: Task, task': Task)
    ensures tasks[t := task][t := task'] == tasks[t := task']
  {
  }

  lemma ReplaceCommittedSlots(s: State, c: CpuId, next: TaskId, runtime: nat, now: int)
    requires ReplaceDefined(s, c, next, runtime)
    ensures ReplaceExistingTask(s, c, next, true, runtime, now).slots ==
            s.slots[c := s.slots[c].(current := Some(next), next := None)]
  {
    var s1 := PreemptTask(s, s.slots[c].current.value, Some(next), runtime);
    assert s1.slots == s.slots[c := s.slots[c].(current := Some(next))];
  }

  /** What a committed replacement does to the two tasks and to the slot. */
  lemma ReplaceCommittedTasks(s: State, c: CpuId, next: TaskId, runtime: nat, now: int)
    requires ReplaceDefined(s, c, next, runtime)
    requires s.slots[c].current.value != next
    ensures var prev := s.slots[c].current.value;
            var s' := ReplaceExistingTask(s, c, next, true, runtime, now);
            && s'.slots == s.slots[c := s.slots[c].(current := Some(next), next := None)]
            && s'.tasks == Evicted(s, c, runtime, true).tasks[next := Installed(s, c, next, now)]
  {
    ReplaceCommittedSlots(s, c, next, runtime, now);
    var prev := s.slots[c].current.value;
    var running := s.tasks[next].(runState := OnCpu, cpu := Some(c));
    var s3 := Evicted(s, c, runtime, true);
    var s2 := Enqueue(SetFlags(PreemptTask(s, prev, Some(next), runtime), prev, true, false), prev);
    assert s3.tasks == s.tasks[prev := s3.tasks[prev]];
    assert s2.tasks == s.tasks[next := running][prev := s3.tasks[prev]];
    PutEitherOrder(s.tasks, next, running, prev, s3.tasks[prev]);
    PutAgain(s3.tasks, next, running, Installed(s, c, next, now));
  }

  function Installed(s: State, c: CpuId, next: TaskId, now: int): Task
    requires next in s.tasks
  {
    s.tasks[next].(runState := OnCpu, cpu := Some(c), prioBoost := false, preempted := false, startSubmit := Some(now))
  }

  lemma ReplaceCommittedReordered(s: State, c: CpuId, next: TaskId, runtime: nat, now: int)
    requires ReplaceDefined(s, c, next, runtime)
    requires s.slots[c].current.value != next
    ensures var s' := ReplaceExistingTask(s, c, next, true, runtime, now);
            var s3 := Evicted(s, c, runtime, true);
            s' == PutTask(PutSlot(s3, c, s.slots[c].(current := Some(next), next := None)), next,
                          Installed(s, c, next, now)).(counters := s'.counters)
  {
    ReplaceCommittedTasks(s, c, next, runtime, now);
    var s3 := Evicted(s, c, runtime, true);
    var slot' := s.slots[c].(current := Some(next), next := None);
    assert s3.slots[c := slot'] == s.slots[c := slot'];
  }

  lemma InstallKeepsPlaced(s: State, c: CpuId, next: TaskId, runtime: nat, now: int)
    requires Placed(s, {next}) && Flagged(s, {next})
    requires ReplaceDefined(s, c, next, runtime)
    requires s.cfg.enforceAffinity ==> c in s.tasks[next].allowed
    ensures var s3 := Evicted(s, c, runtime, true);
            var s4 := PutTask(PutSlot(s3, c, s.slots[c].(current := Some(next), next := None)), next,
                              Installed(s, c, next, now));
            Placed(s4, {}) && Flagged(s4, {})
  {
    ReplaceIsDefined(s, c, next, runtime);
    EvictKeepsPlaced(s, c, next, runtime, true);
    var s3 := Evicted(s, c, runtime, true);
    assert TaskFacts(s3.cfg, s3.clock, s3.tasks[next]);
    assert {next} - {next} == {};
    FillSlotPutsBack(s3, {next}, c, next, Installed(s, c, next, now),
                     s.slots[c].(current := Some(next), next := None));
  }

  lemma ReplaceCommittedKeepsInv(s: State, c: CpuId, next: TaskId, runtime: nat, now: int)
    requires Placed(s, {next}) && Flagged(s, {next}) && Balanced(s)
    requires ReplaceDefined(s, c, next, runtime)
    requires s.cfg.enforceAffinity ==> c in s.tasks[next].allowed
    ensures Inv(ReplaceExistingTask(s, c, next, true, runtime, now))
    ensures ReplaceExistingTask(s, c, next, true, runtime, now).slots[c].current == Some(next)
  {
    ReplaceIsDefined(s, c, next, runtime);
    var s' := ReplaceExistingTask(s, c, next, true, runtime, now);
    var slot' := s.slots[c].(current := Some(next), next := None);
    InstallKeepsPlaced(s, c, next, runtime, now);
    ReplaceCommittedReordered(s, c, next, runtime, now);
    KeepsUnderCounters(PutTask(PutSlot(Evicted(s, c, runtime, true), c, slot'), next, Installed(s, c, next, now)),
                       {}, s'.counters);
    OpenUpdate(s.slots, c, slot');
    assert s'.slots == s.slots[c := slot'] by { ReplaceCommittedTasks(s, c, next, runtime, now); }
  }

  /** The evicted task: boosted so that it runs again soon. */
  function EvictedTask(task: Task, runtime: nat, account: bool): Task
    requires task.runtime <= runtime
  {
    var accounted := if account then task.(runtime := runtime, elapsed := task.elapsed + (runtime - task.runtime))
                     else task;
    accounted.(preempted := false, prioBoost := true)
  }

  /** The slot of c emptied and its task pushed to the front of its queue. */
  function Evicted(s: State, c: CpuId, runtime: nat, account: bool): State
    requires c < |s.slots| && s.slots[c].current.Some? && s.slots[c].current.value in s.tasks
    requires s.tasks[s.slots[c].current.value].runtime <= runtime
  {
    var prev := s.slots[c].current.value;
    var s1 := PutSlot(s, c, s.slots[c].(current := None, next := None));
    Enqueue(PutTask(s1, prev, EvictedTask(s.tasks[prev], runtime, account)), prev)
  }

  lemma EvictKeepsPlaced(s: State, c: CpuId, next: TaskId, runtime: nat, account: bool)
    requires Placed(s, {next}) && Flagged(s, {next})
    requires ReplaceDefined(s, c, next, runtime)
    ensures Placed(Evicted(s, c, runtime, account), {next})
    ensures Flagged(Evicted(s, c, runtime, account), {next})
  {
    ReplaceIsDefined(s, c, next, runtime);
    var prev := s.slots[c].current.value;
    ClearSlotTakesOut(s, {next}, c, prev);
    var s1 := PutSlot(s, c, s.slots[c].(current := None, next := None));
    var out := {next} + {prev};
    assert out - {prev} == {next};
    var prev' := EvictedTask(s.tasks[prev], runtime, account);
    assert TaskFacts(s.cfg, s.clock, s.tasks[prev]);
    assert TaskFacts(s1.cfg, s1.clock, prev');
    OutTaskIsFree(s1, out, prev, prev');
    EnqueuePutsBack(PutTask(s1, prev, prev'), out, prev);
  }

  lemma ReplaceFailedReordered(s: State, c: CpuId, next: TaskId, runtime: nat, now: int)
    requires ReplaceDefined(s, c, next, runtime)
    requires s.slots[c].current.value != next && s.slots[c].next.None?
    ensures var s' := ReplaceExistingTask(s, c, next, false, runtime, now);
            var s3 := Evicted(s, c, runtime, false);
            s' == Yield(SetStartSubmit(s3, next, Some(now)), next).(counters := s'.counters)
  {
    var prev := s.slots[c].current.value;
    var waiting := s.tasks[next].(runState := Yielding);
    var s3 := Evicted(s, c, runtime, false);
    var s2 := Enqueue(SetFlags(s, prev, true, false), prev);
    assert s2.tasks == s.tasks[prev := s3.tasks[prev]] == s3.tasks;
    PutAgain(s3.tasks, next, waiting, waiting.(startSubmit := Some(now)));
    PutAgain(s3.tasks, next, s.tasks[next].(startSubmit := Some(now)), waiting.(startSubmit := Some(now)));
    assert s2.slots[c := s2.slots[c].(current := None)] == s3.slots;
  }

  lemma ReplaceFailedKeepsInv(s: State, c: CpuId, next: TaskId, runtime: nat, now: int)
    requires Placed(s, {next}) && Flagged(s, {next}) && Balanced(s)
    requires ReplaceDefined(s, c, next, runtime)
    ensures Inv(ReplaceExistingTask(s, c, next, false, runtime, now))
    ensures ReplaceExistingTask(s, c, next, false, runtime, now).slots[c].current == None
  {
    ReplaceIsDefined(s, c, next, runtime);
    var s' := ReplaceExistingTask(s, c, next, false, runtime, now);
    EvictKeepsPlaced(s, c, next, runtime, false);
    var s3 := Evicted(s, c, runtime, false);
    assert TaskFacts(s3.cfg, s3.clock, s3.tasks[next]);
    assert {next} - {next} == {};
    OutTaskIsFree(s3, {next}, next, s3.tasks[next].(startSubmit := Some(now)));
    var s4 := SetStartSubmit(s3, next, Some(now));
    YieldPutsBack(s4, {next}, next);
    KeepsUnderCounters(Yield(s4, next), {}, s'.counters);
    ReplaceFailedReordered(s, c, next, runtime, now);
    OpenUpdate(s.slots, c, s.slots[c].(current := None, next := None));
  }

  // ---------------------------------------------------------------- kernel messages

  /** The agent-side CHECKs of the message handlers never fire. */
  lemma MessagesAreDefined(s: State, m: Stopped)
    requires Inv(s) && m.task in s.tasks
    ensures StoppedDefined(s, m)
  {
    Aspects(s);
    assert AtHome(s, m.task);
    if Scheduled(s, m.task) {
      assert SlotOk(s, {}, s.tasks[m.task].cpu.value);
    }
  }

  lemma SwitchtoFlagIsFree(s: State, out: set<TaskId>, c: CpuId, value: bool)
    requires Placed(s, out) && Flagged(s, out) && c < |s.slots|
    ensures var s' := SetInSwitchto(s, c, value);
            Placed(s', out) && Flagged(s', out) && (Balanced(s) ==> Balanced(s'))
  {
    var s' := SetInSwitchto(s, c, value);
    OpenUpdate(s.slots, c, s'.slots[c]);
    forall x | x in s'.tasks && x !in out
      ensures AtHome(s', x)
    {
      assert AtHome(s, x);
    }
    forall d | 0 <= d < |s'.slots|
      ensures SlotOk(s', out, d)
    {
      assert SlotOk(s, out, d);
    }
  }

  /** Changing a placed task without moving it. */
  lemma InPlaceUpdate(s: State, t: TaskId, task: Task, except: set<TaskId>)
    requires Placed(s, {}) && Flagged(s, except)
    requires t in s.tasks
    requires task.runState == s.tasks[t].runState && task.cpu == s.tasks[t].cpu && task.stamp == s.tasks[t].stamp
    requires TaskFacts(s.cfg, s.clock, task)
    ensures Placed(PutTask(s, t, task), {})
    ensures Flagged(PutTask(s, t, task), except + {t})
    ensures TaskFlags(s.cfg, task) ==> Flagged(PutTask(s, t, task), except - {t})
  {
    var s' := PutTask(s, t, task);
    TaskCount(s, s');
    assert Unmoved(s, {}, s', {});
    QueueFrame(s, {}, s', {}, s.runQ);
    QueueFrame(s, {}, s', {}, s.lowQ);
    YieldingFrame(s, {}, s', {});
    SlotsFrame(s, {}, s', {});
    HomesFrame(s, {}, s', {});
    FlaggedFrame(s, except, s', except + {t}, t);
    if TaskFlags(s.cfg, task) {
      FlaggedFrame(s, except, s', except - {t}, t);
    }
  }

  /** Leaving a CPU, in one step. */
  lemma LeaveForm(s: State, t: TaskId, runtime: nat)
    requires Placed(s, {})
    requires t in s.tasks && Scheduled(s, t) && s.tasks[t].runtime <= runtime
    ensures StoppedDefined(s, Stopped(t, false, 0, runtime))
    ensures var c := s.tasks[t].cpu.value;
            var s' := Leave(s, t, runtime);
            var task := s.tasks[t];
            s' == PutTask(PutSlot(s, c, s.slots[c].(current := None, next := None)), t,
                          task.(runState := OnCpu,
                                prioBoost := task.prioBoost && task.runState.OnCpu?,
                                runtime := runtime, elapsed := task.elapsed + (runtime - task.runtime)))
                  .(counters := if task.runState.Pending?
                                then s.counters.(success := s.counters.success + 1) else s.counters)
  {
    var task := s.tasks[t];
    assert AtHome(s, t);
    var c := task.cpu.value;
    assert SlotOk(s, {}, c);
    var s' := Leave(s, t, runtime);
    assert s'.slots == s.slots[c := s.slots[c].(current := None, next := None)];
    assert s'.tasks == s.tasks[t := s'.tasks[t]];
  }

  lemma LeaveTakesOut(s: State, t: TaskId, runtime: nat)
    requires Placed(s, {}) && Flagged(s, {t}) && Balanced(s)
    requires t in s.tasks && Scheduled(s, t) && s.tasks[t].runtime <= runtime
    ensures StoppedDefined(s, Stopped(t, false, 0, runtime))
    ensures var s' := Leave(s, t, runtime);
            && Placed(s', {t}) && Flagged(s', {t}) && Balanced(s')
            && t in s'.tasks && s'.tasks[t].runState.OnCpu?
            && s'.tasks[t].preempted == s.tasks[t].preempted
            && (!s.tasks[t].prioBoost ==> !s'.tasks[t].prioBoost)
  {
    LeaveForm(s, t, runtime);
    assert AtHome(s, t);
    var c := s.tasks[t].cpu.value;
    assert SlotOk(s, {}, c);
    var s' := Leave(s, t, runtime);
    assert {} + {t} == {t};
    ClearSlotTakesOut(s, {}, c, t);
    var slot' := s.slots[c].(current := None, next := None);
    assert TaskFacts(s.cfg, s.clock, s.tasks[t]);
    OutTaskIsFree(PutSlot(s, c, slot'), {t}, t, s'.tasks[t]);
    var s2 := PutTask(PutSlot(s, c, slot'), t, s'.tasks[t]);
    OpenUpdate(s.slots, c, slot');
    KeepsUnderCounters(s2, {t}, s'.counters);
  }

  // The handlers: the task leaves its CPU, its queue or nothing, and is put where the message says.

  lemma SetFlagsInPlace(s: State, t: TaskId, prioBoost: bool, preempted: bool)
    requires Inv(s) && t in s.tasks
    ensures var s' := SetFlags(s, t, prioBoost, preempted);
            && Placed(s', {}) && Flagged(s', {t}) && Balanced(s')
            && (!Scheduled(s, t) ==> Inv(s'))
  {
    Aspects(s);
    assert TaskFacts(s.cfg, s.clock, s.tasks[t]);
    assert {} + {t} == {t} && {} - {t} == {};
    InPlaceUpdate(s, t, s.tasks[t].(prioBoost := prioBoost, preempted := preempted), {});
  }

  /** The submit time of a task that is not scheduled is free. */
  lemma ForgetSubmitKeepsInv(s: State, m: Stopped)
    requires Inv(s) && m.task in s.tasks && !Scheduled(s, m.task)
    ensures Inv(ForgetSubmit(s, m))
  {
    Aspects(s);
    assert TaskFacts(s.cfg, s.clock, s.tasks[m.task]);
    assert {} - {m.task} == {};
    InPlaceUpdate(s, m.task, s.tasks[m.task].(startSubmit := None), {});
  }

  lemma LeaveSwitchtoTakesOut(s: State, m: Stopped)
    requires Placed(s, {}) && Flagged(s, {}) && Balanced(s)
    requires m.task in s.tasks && s.tasks[m.task].runState.Blocked? && s.tasks[m.task].runtime <= m.runtime
    requires m.cpu < |s.slots|
    ensures var s' := LeaveSwitchto(s, m);
            && Placed(s', {m.task}) && Flagged(s', {m.task}) && Balanced(s')
            && m.task in s'.tasks && s'.tasks[m.task].runState.Blocked?
  {
    var t := m.task;
    var task := s.tasks[t];
    assert TaskFacts(s.cfg, s.clock, task);
    var task' := task.(runtime := m.runtime, elapsed := task.elapsed + (m.runtime - task.runtime));
    assert {} + {t} == {t} && {} - {t} == {};
    InPlaceUpdate(s, t, task', {});
    SwitchtoFlagIsFree(UpdateRuntime(s, t, m.runtime), {}, m.cpu, false);
    BlockedIsOut(LeaveSwitchto(s, m), {}, t);
  }

  lemma SetBlockedPutsBack(s: State, t: TaskId)
    requires Placed(s, {t}) && Flagged(s, {t}) && Balanced(s) && t in s.tasks
    ensures Inv(SetRunState(s, t, Blocked))
  {
    assert TaskFacts(s.cfg, s.clock, s.tasks[t]);
    assert {t} - {t} == {};
    OutTaskIsFree(s, {t}, t, s.tasks[t].(runState := Blocked));
    BlockedMayStayOut(SetRunState(s, t, Blocked), {t}, t);
  }

  /** The task of the message taken off its CPU, or out of the switchto chain it blocked in. */
  function Parked(s: State, m: Stopped): State
    requires m.task in s.tasks && s.tasks[m.task].runtime <= m.runtime
    requires Scheduled(s, m.task) ==> StoppedDefined(s, m)
    requires !Scheduled(s, m.task) ==> m.cpu < |s.slots|
  {
    if Scheduled(s, m.task) then Leave(s, m.task, m.runtime) else LeaveSwitchto(s, m)
  }

  lemma ParkTakesOut(s: State, m: Stopped, prioBoost: bool, preempted: bool)
    requires Inv(s) && StoppedLegal(s, m)
    requires Scheduled(s, m.task) || m.fromSwitchto
    ensures var s1 := SetFlags(s, m.task, prioBoost, preempted);
            && StoppedDefined(s1, m)
            && var s2 := Parked(s1, m);
               && Placed(s2, {m.task}) && Flagged(s2, {m.task}) && Balanced(s2)
               && m.task in s2.tasks
               && s2.tasks[m.task].runState == (if Scheduled(s, m.task) then OnCpu else Blocked)
  {
    var s1 := SetFlags(s, m.task, prioBoost, preempted);
    SetFlagsInPlace(s, m.task, prioBoost, preempted);
    if Scheduled(s, m.task) {
      LeaveTakesOut(s1, m.task, m.runtime);
    } else {
      LeaveSwitchtoTakesOut(s1, m);
    }
  }

  lemma RemoveKeepsInv(s: State, t: TaskId)
    requires Inv(s) && t in s.tasks && s.tasks[t].runState.Queued?
    ensures t in s.runQ || t in s.lowQ
    ensures Inv(RemoveFromRunqueue(s, t, Blocked))
  {
    Aspects(s);
    EraseTakesOut(s, t);
    var s' := RemoveFromRunqueue(s, t, Blocked);
    assert {t} - {t} == {} && {} - {t} == {};
    assert TaskFlags(s'.cfg, s'.tasks[t]);
  }

  lemma ParkBlockedKeepsInv(s: State, m: Stopped)
    requires Inv(s) && StoppedLegal(s, m)
    requires Scheduled(s, m.task) || m.fromSwitchto
    ensures var s1 := SetBoost(s, m.task, false);
            && StoppedDefined(s1, m)
            && Inv(SetRunState(Parked(s1, m), m.task, Blocked))
            && (!Scheduled(s, m.task) ==> SetRunState(Parked(s1, m), m.task, Blocked) == LeaveSwitchto(s1, m))
  {
    var s1 := SetFlags(s, m.task, false, s.tasks[m.task].preempted);
    assert s1 == SetBoost(s, m.task, false);
    ParkTakesOut(s, m, false, s.tasks[m.task].preempted);
    SetBlockedPutsBack(Parked(s1, m), m.task);
    assert !Scheduled(s, m.task) ==> SetRunState(Parked(s1, m), m.task, Blocked).tasks == Parked(s1, m).tasks;
  }

  lemma TaskBlockedKeepsInv(s: State, m: Stopped)
    requires Inv(s) && StoppedLegal(s, m)
    ensures StoppedDefined(s, m) && Inv(TaskBlocked(s, m))
    ensures TaskBlocked(s, m).tasks[m.task].runState.Blocked?
  {
    MessagesAreDefined(s, m);
    var t := m.task;
    var s1 := SetBoost(s, t, false);
    if Scheduled(s, t) || m.fromSwitchto {
      ParkBlockedKeepsInv(s, m);
      ForgetSubmitKeepsInv(SetRunState(Parked(s1, m), t, Blocked), m);
    } else {
      assert s1 == SetFlags(s, t, false, s.tasks[t].preempted);
      SetFlagsInPlace(s, t, false, s.tasks[t].preempted);
      RemoveKeepsInv(s1, t);
      ForgetSubmitKeepsInv(RemoveFromRunqueue(s1, t, Blocked), m);
    }
  }

  lemma TaskPreemptedKeepsInv(s: State, m: Stopped)
    requires Inv(s) && StoppedLegal(s, m)
    ensures StoppedDefined(s, m) && Inv(TaskPreempted(s, m))
    ensures TaskPreempted(s, m).tasks[m.task].runState.Queued?
  {
    MessagesAreDefined(s, m);
    var t := m.task;
    var s1 := SetFlags(s, t, false, true);
    if Scheduled(s, t) || m.fromSwitchto {
      ParkTakesOut(s, m, false, true);
      assert {t} - {t} == {};
      EnqueuePutsBack(Parked(s1, m), {t}, t);
      ForgetSubmitKeepsInv(Enqueue(Parked(s1, m), t), m);
    } else {
      SetFlagsInPlace(s, t, false, true);
      ForgetSubmitKeepsInv(s1, m);
    }
  }

  lemma TaskYieldKeepsInv(s: State, m: Stopped)
    requires Inv(s) && StoppedLegal(s, m)
    ensures StoppedDefined(s, m) && Inv(TaskYield(s, m))
    ensures var runState := TaskYield(s, m).tasks[m.task].runState;
            if Scheduled(s, m.task) || m.fromSwitchto then runState.Yielding? else runState.Queued?
  {
    MessagesAreDefined(s, m);
    var t := m.task;
    var s1 := SetFlags(s, t, false, s.tasks[t].preempted);
    assert s1 == SetBoost(s, t, false);
    if Scheduled(s, t) || m.fromSwitchto {
      ParkTakesOut(s, m, false, s.tasks[t].preempted);
      assert {t} - {t} == {};
      YieldPutsBack(Parked(s1, m), {t}, t);
      ForgetSubmitKeepsInv(Yield(Parked(s1, m), t), m);
    } else {
      SetFlagsInPlace(s, t, false, s.tasks[t].preempted);
      ForgetSubmitKeepsInv(s1, m);
    }
  }

  lemma TaskSwitchtoKeepsInv(s: State, m: Stopped)
    requires Inv(s) && SwitchtoLegal(s, m)
    ensures StoppedDefined(s, m) && Inv(TaskSwitchto(s, m))
    ensures TaskSwitchto(s, m).tasks[m.task].runState.Blocked? && TaskSwitchto(s, m).slots[m.cpu].inSwitchto
  {
    Aspects(s);
    MessagesAreDefined(s, m);
    var t := m.task;
    var s0 := SetInSwitchto(s, m.cpu, true);
    SwitchtoFlagIsFree(s, {}, m.cpu, true);
    SetFlagsInPlace(s0, t, false, s0.tasks[t].preempted);
    var s1 := SetBoost(s0, t, false);
    assert s1 == SetFlags(s0, t, false, s0.tasks[t].preempted);
    if Scheduled(s, t) {
      LeaveTakesOut(s1, t, m.runtime);
      SetBlockedPutsBack(Leave(s1, t, m.runtime), t);
    } else {
      RemoveKeepsInv(s1, t);
    }
  }

  /** A blocked task may be enqueued. */
  lemma WakeKeepsInv(s: State, t: TaskId)
    requires Inv(s) && t in s.tasks && s.tasks[t].runState.Blocked?
    ensures Inv(Enqueue(s, t))
  {
    Aspects(s);
    assert {} + {t} == {t} && {t} - {t} == {};
    BlockedIsOut(s, {}, t);
    EnqueuePutsBack(s, {t}, t);
    Aspects(Enqueue(s, t));
  }

  lemma TaskRunnableKeepsInv(s: State, t: TaskId, deferrable: bool)
    requires Inv(s) && t in s.tasks && s.tasks[t].runState.Blocked?
    ensures Inv(TaskRunnable(s, t, deferrable)) && TaskRunnable(s, t, deferrable).tasks[t].runState.Queued?
  {
    var s1 := SetBoost(s, t, !deferrable);
    SetFlagsInPlace(s, t, !deferrable, s.tasks[t].preempted);
    assert s1 == SetFlags(s, t, !deferrable, s.tasks[t].preempted);
    WakeKeepsInv(s1, t);
  }

  // ---------------------------------------------------------------- creation and departure

  lemma CreateKeepsInv(s: State, t: TaskId, task: Task)
    requires Inv(s) && t !in s.tasks
    requires task.runState.Blocked? && TaskFacts(s.cfg, s.clock, task)
    ensures Inv(PutTask(s, t, task).(numTasks := s.numTasks + 1))
  {
    Aspects(s);
    var s' := PutTask(s, t, task).(numTasks := s.numTasks + 1);
    assert s'.tasks.Keys == s.tasks.Keys + {t};
    assert |s'.tasks| == |s'.tasks.Keys| == |s.tasks.Keys| + 1;
    QueueFrame(s, {}, s', {}, s.runQ);
    QueueFrame(s, {}, s', {}, s.lowQ);
    YieldingFrame(s, {}, s', {});
    CreateKeepsSlots(s, t, task);
  }

  lemma CreateKeepsSlots(s: State, t: TaskId, task: Task)
    requires SlotsOk(s, {}) && HomesOk(s, {}) && t !in s.tasks
    requires task.runState.Blocked?
    ensures var s' := PutTask(s, t, task).(numTasks := s.numTasks + 1);
            SlotsOk(s', {}) && HomesOk(s', {})
  {
    var s' := PutTask(s, t, task).(numTasks := s.numTasks + 1);
    forall x | x in s'.tasks
      ensures AtHome(s', x)
    {
      if x != t { assert AtHome(s, x); }
    }
    forall c | 0 <= c < |s'.slots|
      ensures SlotOk(s', {}, c)
    {
      assert SlotOk(s, {}, c);
    }
  }

  /** The order in which the new task gets its affinity, its priority and its place does not matter. */
  lemma TaskNewForm(s: State, t: TaskId, runnable: bool, runtime: nat, affinity: set<CpuId>,
                    uninitialised: bool, highPriority: bool)
    requires t !in s.tasks
    ensures var task := Task(Blocked, None, false, false, uninitialised, affinity * s.cfg.cpus, None, runtime, 0, 0);
            var s1 := PutTask(s, t, task).(numTasks := s.numTasks + 1);
            var s2 := if runnable then Enqueue(s1, t) else s1;
            TaskNew(s, t, runnable, runtime, affinity, uninitialised, highPriority) ==
            PutTask(s2, t, s2.tasks[t].(highPriority := highPriority))
  {
    var task := Task(Blocked, None, false, false, uninitialised, affinity * s.cfg.cpus, None, runtime, 0, 0);
    var s1 := PutTask(s, t, task).(numTasks := s.numTasks + 1);
    var s2 := if runnable then Enqueue(s1, t) else s1;
    assert TaskNew(s, t, runnable, runtime, affinity, uninitialised, highPriority).tasks ==
           PutTask(s2, t, s2.tasks[t].(highPriority := highPriority)).tasks;
  }

  lemma TaskNewKeepsInv(s: State, t: TaskId, runnable: bool, runtime: nat, affinity: set<CpuId>,
                        uninitialised: bool, highPriority: bool)
    requires Inv(s) && t !in s.tasks
    requires affinity * s.cfg.cpus != {}
    ensures var s' := TaskNew(s, t, runnable, runtime, affinity, uninitialised, highPriority);
            Inv(s') && t in s'.tasks && if runnable then s'.tasks[t].runState.Queued? else s'.tasks[t].runState.Blocked?
  {
    var task := Task(Blocked, None, false, false, uninitialised, affinity * s.cfg.cpus, None, runtime, 0, 0);
    CreateKeepsInv(s, t, task);
    var s1 := PutTask(s, t, task).(numTasks := s.numTasks + 1);
    if runnable {
      WakeKeepsInv(s1, t);
    }
    PriorityIsFree(if runnable then Enqueue(s1, t) else s1, t, highPriority);
    TaskNewForm(s, t, runnable, runtime, affinity, uninitialised, highPriority);
  }

  lemma PriorityIsFree(s: State, t: TaskId, highPriority: bool)
    requires Inv(s) && t in s.tasks
    ensures Inv(PutTask(s, t, s.tasks[t].(highPriority := highPriority)))
  {
    Aspects(s);
    assert TaskFacts(s.cfg, s.clock, s.tasks[t]) && TaskFlags(s.cfg, s.tasks[t]);
    assert {} - {t} == {};
    InPlaceUpdate(s, t, s.tasks[t].(highPriority := highPriority), {});
  }

  lemma FreeKeepsInv(s: State, t: TaskId)
    requires Inv(s) && t in s.tasks && s.tasks[t].runState.Blocked?
    ensures Inv(FreeTask(s, t))
  {
    Aspects(s);
    var s' := FreeTask(s, t);
    assert s'.tasks.Keys == s.tasks.Keys - {t};
    assert |s'.tasks| == |s'.tasks.Keys| == |s.tasks.Keys| - 1;
    QueueFrame(s, {}, s', {}, s.runQ);
    QueueFrame(s, {}, s', {}, s.lowQ);
    YieldingFrame(s, {}, s', {});
    forall x | x in s'.tasks
      ensures AtHome(s', x)
    {
      assert AtHome(s, x);
    }
    forall c | 0 <= c < |s'.slots|
      ensures SlotOk(s', {}, c)
    {
      assert SlotOk(s, {}, c);
    }
  }

  /**
    TASK_DEPARTED frees the task whatever its state. The bookkeeping survives exactly when the task is
    blocked: otherwise a queue, the yield list or a CPU slot is left holding a task that is gone.
   */
  lemma DepartedKeepsInvIffBlocked(s: State, t: TaskId, fromSwitchto: bool, c: CpuId)
    requires Inv(s) && t in s.tasks
    requires fromSwitchto ==> c < |s.slots| && s.slots[c].inSwitchto
    ensures Inv(TaskDeparted(s, t, fromSwitchto, c)) <==> s.tasks[t].runState.Blocked?
  {
    Aspects(s);
    var s1 := if fromSwitchto then SetInSwitchto(s, c, false) else s;
    if fromSwitchto {
      SwitchtoFlagIsFree(s, {}, c, false);
    }
    var s' := TaskDeparted(s, t, fromSwitchto, c);
    Aspects(s1);
    Aspects(s');
    if s.tasks[t].runState.Blocked? {
      FreeKeepsInv(s1, t);
    } else {
      assert AtHome(s1, t);
      assert t !in s'.tasks;
      if Scheduled(s, t) {
        assert !SlotOk(s', {}, s.tasks[t].cpu.value);
      } else if s.tasks[t].runState.Yielding? {
        assert !YieldingOk(s', {});
      } else {
        assert !QueueOk(s', {}, if t in s.runQ then s.runQ else s.lowQ);
      }
    }
  }
}
