/**
  What each message, transaction and migration does, as a before-and-after statement about the run queues,
  the CPU slots and the task concerned. Only `stamp` and `clock`, which are history, are not mentioned.
 */
module SchedulerEffects {
  import opened Options
  import opened CpuLists
  import opened SchedulerState
  import opened SchedulerInvariant
  import opened SchedulerSteps
  import opened SchedulerRound

  // ---------------------------------------------------------------- the parts of a state

  ghost predicate SameQueues(s: State, s': State) {
    s'.runQ == s.runQ && s'.lowQ == s.lowQ
  }

  /** t is new at the head of the queue of the given priority. */
  ghost predicate PutFirst(s: State, s': State, t: TaskId, high: bool) {
    if high then s'.runQ == [t] + s.runQ && s'.lowQ == s.lowQ
    else s'.lowQ == [t] + s.lowQ && s'.runQ == s.runQ
  }

  ghost predicate PutLast(s: State, s': State, t: TaskId, high: bool) {
    if high then s'.runQ == s.runQ + [t] && s'.lowQ == s.lowQ
    else s'.lowQ == s.lowQ + [t] && s'.runQ == s.runQ
  }

  ghost predicate Put(s: State, s': State, t: TaskId, high: bool, first: bool) {
    if first then PutFirst(s, s', t, high) else PutLast(s, s', t, high)
  }

  ghost predicate Without(queue: seq<TaskId>, queue': seq<TaskId>, t: TaskId) {
    exists i :: 0 <= i < |queue| && queue[i] == t && queue' == queue[..i] + queue[i + 1..]
  }

  /** t has left the queue that it was in. */
  ghost predicate TakenOut(s: State, s': State, t: TaskId) {
    || (Without(s.runQ, s'.runQ, t) && s'.lowQ == s.lowQ)
    || (Without(s.lowQ, s'.lowQ, t) && s'.runQ == s.runQ)
  }

  /** The task that is at the head of the queues was taken. */
  ghost predicate HeadTaken(s: State, s': State, t: TaskId) {
    if s.runQ != [] then s.runQ == [t] + s'.runQ && s'.lowQ == s.lowQ
    else s.lowQ == [t] + s'.lowQ && s'.runQ == s.runQ
  }

  /** Of the tasks only t has changed, to the given one. */
  ghost predicate Becomes(s: State, s': State, t: TaskId, task: Task) {
    t in s'.tasks && s'.tasks == s.tasks[t := task.(stamp := s'.tasks[t].stamp)]
  }

  /** The same machine, the same agent CPU and the same number of tasks. */
  ghost predicate SameMachine(s: State, s': State) {
    s'.cfg == s.cfg && s'.globalCpu == s.globalCpu && s'.numTasks == s.numTasks
  }

  ghost predicate OnlyCpu(s: State, s': State, c: CpuId, slot: CpuState) {
    c < |s.slots| && s'.slots == s.slots[c := slot]
  }

  // ---------------------------------------------------------------- wakeups

  /**
    A woken task goes to the front of its queue if the wakeup is not deferrable or the task was preempted,
    and to the back otherwise.
   */
  lemma WakeupEffect(s: State, t: TaskId, deferrable: bool)
    requires t in s.tasks && s.tasks[t].runState.Blocked?
    ensures var s' := TaskRunnable(s, t, deferrable);
            var task := s.tasks[t];
            && Put(s, s', t, task.highPriority, !deferrable || task.preempted)
            && Becomes(s, s', t, task.(runState := Queued, prioBoost := !deferrable))
            && SameMachine(s, s') && s'.slots == s.slots && s'.yielding == s.yielding && s'.counters == s.counters
  {
    var s' := TaskRunnable(s, t, deferrable);
    assert s'.tasks[t] == s.tasks[t].(runState := Queued, prioBoost := !deferrable, stamp := s'.tasks[t].stamp);
  }

  /** Then it is the next to be dequeued, unless it has low priority and a high priority task waits. */
  lemma WokenIsNext(s: State, t: TaskId, deferrable: bool)
    requires Inv(s) && t in s.tasks && s.tasks[t].runState.Blocked?
    ensures var task := s.tasks[t];
            var own := if task.highPriority then s.runQ else s.lowQ;
            Head(TaskRunnable(s, t, deferrable)) == Some(t) <==>
            && (!deferrable || task.preempted || own == [])
            && (task.highPriority || s.runQ == [])
  {
    WakeupEffect(s, t, deferrable);
    Aspects(s);
    assert AtHome(s, t);
    assert t !in s.runQ && t !in s.lowQ by {
      assert forall i :: 0 <= i < |s.runQ| ==> s.tasks[s.runQ[i]].runState.Queued?;
      assert forall i :: 0 <= i < |s.lowQ| ==> s.tasks[s.lowQ[i]].runState.Queued?;
    }
  }

  lemma NewEffect(s: State, t: TaskId, runnable: bool, runtime: nat, affinity: set<CpuId>, uninitialised: bool,
                  highPriority: bool)
    requires t !in s.tasks
    ensures var s' := TaskNew(s, t, runnable, runtime, affinity, uninitialised, highPriority);
            && (if runnable then PutLast(s, s', t, uninitialised) else SameQueues(s, s'))
            && Becomes(s, s', t, Task(if runnable then Queued else Blocked, None, false, false, highPriority,
                                      affinity * s.cfg.cpus, None, runtime, 0, 0))
            && s'.cfg == s.cfg && s'.globalCpu == s.globalCpu && s'.numTasks == s.numTasks + 1
            && s'.slots == s.slots && s'.yielding == s.yielding && s'.counters == s.counters
  {
  }

  lemma FreeEffect(s: State, t: TaskId, fromSwitchto: bool, c: CpuId)
    requires t in s.tasks && (fromSwitchto ==> c < |s.slots| && s.slots[c].inSwitchto)
    ensures var s' := TaskDeparted(s, t, fromSwitchto, c);
            && t !in s'.tasks && s'.tasks.Keys == s.tasks.Keys - {t}
            && (forall x :: x in s.tasks && x != t ==> s'.tasks[x] == s.tasks[x])
            && s'.numTasks == s.numTasks - 1 && s'.cfg == s.cfg && s'.globalCpu == s.globalCpu
            && SameQueues(s, s') && s'.yielding == s.yielding && s'.counters == s.counters
            && (if fromSwitchto then OnlyCpu(s, s', c, s.slots[c].(inSwitchto := false)) else s'.slots == s.slots)
    ensures s.tasks[t].runState.Blocked? ==> TaskDead(s, t) == TaskDeparted(s, t, false, c)
  {
  }

  // ---------------------------------------------------------------- transactions

  /**
    A completed transaction makes its task the running one. A failed one sends it back, to the front if it
    is boosted or was preempted.
   */
  lemma SyncEffect(s: State, c: CpuId, txn: TxnState)
    requires Inv(s) && c < |s.slots|
    ensures SyncDefined(s, c)
    ensures var s' := SyncCpuState(s, c, txn);
            if s.slots[c].next.None? then s' == s
            else
              var t := s.slots[c].next.value;
              && t in s.tasks
              && var task := s.tasks[t];
                 && SameMachine(s, s') && s'.yielding == s.yielding && s.slots[c].current.None?
                 && (if txn.Complete? then
                       && SameQueues(s, s') && OnlyCpu(s, s', c, s.slots[c].(current := Some(t), next := None))
                       && s'.tasks == s.tasks[t := task.(runState := OnCpu, prioBoost := false)]
                       && s'.counters == s.counters.(success := s.counters.success + 1)
                     else
                       && Put(s, s', t, task.highPriority, task.prioBoost)
                       && OnlyCpu(s, s', c, s.slots[c].(next := None))
                       && Becomes(s, s', t, task.(runState := Queued, cpu := None, startSubmit := None))
                       && s'.counters == if txn.CpuUnavail?
                                         then s.counters.(failUnavail := s.counters.failUnavail + 1)
                                         else s.counters.(failOther := s.counters.failOther + 1))
  {
    SyncIsDefined(s, c);
    Aspects(s);
    assert SlotOk(s, {}, c);
    if s.slots[c].next.Some? {
      var t := s.slots[c].next.value;
      var task := s.tasks[t];
      assert TaskFlags(s.cfg, task);
      assert task.cpu == Some(c) && !task.preempted;
    }
  }

  /** A task is put on a CPU: its preemption is remembered as a boost. */
  lemma AssignEffect(s: State, c: CpuId, t: TaskId, now: int)
    requires c < |s.slots| && s.slots[c].next.None? && s.slots[c].current.None?
    requires t in s.tasks && !s.tasks[t].runState.Pending?
    ensures var s' := Assign(s, c, t, now);
            var task := s.tasks[t];
            && OnlyCpu(s, s', c, CpuState(None, Some(t), s.slots[c].inSwitchto)) && SameQueues(s, s') && SameMachine(s, s')
            && s'.tasks == s.tasks[t := task.(runState := Pending, cpu := Some(c), startSubmit := Some(now),
                                              prioBoost := task.prioBoost || task.preempted, preempted := false)]
            && s'.yielding == s.yielding && s'.counters == s.counters.(total := s.counters.total + 1)
  {
  }

  /**
    A task whose transaction fails is queued again where it would have been queued before it was placed: in
    front if it was boosted or preempted then, at the back otherwise.
   */
  lemma FailureKeepsPrecedence(s: State, c: CpuId, t: TaskId, now: int, txn: TxnState)
    requires Placed(s, {t}) && Flagged(s, {t}) && Balanced(s)
    requires t in s.tasks && s.tasks[t].runState.Queued?
    requires c in s.cfg.cpus && c < |s.slots| && c != s.globalCpu
    requires s.slots[c].current.None? && s.slots[c].next.None? && !txn.Complete?
    requires s.cfg.enforceAffinity ==> c in s.tasks[t].allowed
    ensures var s1 := Assign(s, c, t, now);
            && SyncDefined(s1, c)
            && var s2 := SyncCpuState(s1, c, txn);
               && s2.slots == s.slots && t in s2.tasks && s2.tasks[t].runState.Queued?
               && Put(s, s2, t, s.tasks[t].highPriority, s.tasks[t].prioBoost || s.tasks[t].preempted)
  {
    AssignKeepsInv(s, c, t, now);
    AssignEffect(s, c, t, now);
    SyncEffect(Assign(s, c, t, now), c, txn);
  }

  /** The victim of a replacement, which is accounted for only if the kernel commits. */
  function VictimOf(task: Task, committed: bool, runtime: nat): Task
    requires task.runtime <= runtime
  {
    var queued := task.(runState := Queued, preempted := false, prioBoost := true);
    if committed then queued.(runtime := runtime, elapsed := task.elapsed + (runtime - task.runtime)) else queued
  }

  function SuccessorOf(task: Task, c: CpuId, committed: bool, now: int): Task {
    if committed then
      task.(runState := OnCpu, cpu := Some(c), prioBoost := false, preempted := false, startSubmit := Some(now))
    else task.(runState := Yielding, startSubmit := Some(now))
  }

  /**
    A replacement puts the victim in front of its queue. The new task runs instead, or it waits for the
    next round and the CPU stays empty.
   */
  lemma ReplaceEffect(s: State, c: CpuId, next: TaskId, committed: bool, runtime: nat, now: int)
    requires ReplaceDefined(s, c, next, runtime) && s.slots[c].current.value != next && s.slots[c].next.None?
    ensures var s' := ReplaceExistingTask(s, c, next, committed, runtime, now);
            var victim := s.slots[c].current.value;
            && PutFirst(s, s', victim, s.tasks[victim].highPriority) && SameMachine(s, s')
            && OnlyCpu(s, s', c, CpuState(if committed then Some(next) else None, None, s.slots[c].inSwitchto))
            && s'.yielding == (if committed then s.yielding else s.yielding + [next])
            && victim in s'.tasks
            && s'.tasks == s.tasks[victim := VictimOf(s.tasks[victim], committed, runtime)
                                               .(stamp := s'.tasks[victim].stamp)]
                                  [next := SuccessorOf(s.tasks[next], c, committed, now)]
            && s'.counters.total == s.counters.total + 1
  {
    if committed {
      CommittedEffect(s, c, next, runtime, now);
    } else {
      RefusedEffect(s, c, next, runtime, now);
    }
  }

  lemma CommittedEffect(s: State, c: CpuId, next: TaskId, runtime: nat, now: int)
    requires ReplaceDefined(s, c, next, runtime) && s.slots[c].current.value != next && s.slots[c].next.None?
    ensures var s' := ReplaceExistingTask(s, c, next, true, runtime, now);
            var victim := s.slots[c].current.value;
            && PutFirst(s, s', victim, s.tasks[victim].highPriority) && SameMachine(s, s')
            && OnlyCpu(s, s', c, CpuState(Some(next), None, s.slots[c].inSwitchto)) && s'.yielding == s.yielding
            && victim in s'.tasks
            && s'.tasks == s.tasks[victim := VictimOf(s.tasks[victim], true, runtime).(stamp := s'.tasks[victim].stamp)]
                                  [next := SuccessorOf(s.tasks[next], c, true, now)]
            && s'.counters.total == s.counters.total + 1
  {
    ReplaceCommittedReordered(s, c, next, runtime, now);
    ReplaceCommittedSlots(s, c, next, runtime, now);
  }

  lemma RefusedEffect(s: State, c: CpuId, next: TaskId, runtime: nat, now: int)
    requires ReplaceDefined(s, c, next, runtime) && s.slots[c].current.value != next && s.slots[c].next.None?
    ensures var s' := ReplaceExistingTask(s, c, next, false, runtime, now);
            var victim := s.slots[c].current.value;
            && PutFirst(s, s', victim, s.tasks[victim].highPriority) && SameMachine(s, s')
            && OnlyCpu(s, s', c, CpuState(None, None, s.slots[c].inSwitchto)) && s'.yielding == s.yielding + [next]
            && victim in s'.tasks
            && s'.tasks == s.tasks[victim := VictimOf(s.tasks[victim], false, runtime).(stamp := s'.tasks[victim].stamp)]
                                  [next := SuccessorOf(s.tasks[next], c, false, now)]
            && s'.counters.total == s.counters.total + 1
  {
    ReplaceFailedReordered(s, c, next, runtime, now);
  }

  // ---------------------------------------------------------------- tasks that stop running

  function Accounted(task: Task, runtime: nat): Task
    requires task.runtime <= runtime
  {
    task.(runtime := runtime, elapsed := task.elapsed + (runtime - task.runtime))
  }

  /** The slot of the CPU that the agent had given to t. */
  ghost predicate HasCpu(s: State, t: TaskId, c: CpuId) {
    && t in s.tasks && s.tasks[t].cpu == Some(c) && c < |s.slots|
    && (s.tasks[t].runState.OnCpu? ==> s.slots[c].current == Some(t) && s.slots[c].next == None)
    && (s.tasks[t].runState.Pending? ==> s.slots[c].next == Some(t) && s.slots[c].current == None)
  }

  lemma ScheduledHasCpu(s: State, t: TaskId)
    requires Inv(s) && t in s.tasks && Scheduled(s, t)
    ensures s.tasks[t].cpu.Some? && HasCpu(s, t, s.tasks[t].cpu.value)
  {
    Aspects(s);
    assert AtHome(s, t);
    assert SlotOk(s, {}, s.tasks[t].cpu.value);
  }

  lemma LeaveEffect(s: State, t: TaskId, runtime: nat, c: CpuId)
    requires HasCpu(s, t, c) && Scheduled(s, t) && s.tasks[t].runtime <= runtime && !s.tasks[t].prioBoost
    ensures CpuStateOfDefined(s, t)
    ensures var s' := Leave(s, t, runtime);
            && SameQueues(s, s') && SameMachine(s, s') && s'.yielding == s.yielding
            && OnlyCpu(s, s', c, CpuState(None, None, s.slots[c].inSwitchto))
            && s'.tasks == s.tasks[t := Accounted(s.tasks[t], runtime).(runState := OnCpu)]
            && s'.counters == Reaped(s, t)
  {
  }

  /** A pending task that the kernel reports about has been reaped successfully. */
  function Reaped(s: State, t: TaskId): Counters
    requires t in s.tasks
  {
    if s.tasks[t].runState.Pending? then s.counters.(success := s.counters.success + 1) else s.counters
  }

  /** Where a task stopped: on the CPU that the agent gave it, or at the end of a switchto chain, or it was queued. */
  ghost predicate CpuLeft(s: State, s': State, m: Stopped)
    requires m.task in s.tasks
  {
    if Scheduled(s, m.task) then
      && s.tasks[m.task].cpu.Some?
      && var c := s.tasks[m.task].cpu.value;
         c < |s.slots| && OnlyCpu(s, s', c, CpuState(None, None, s.slots[c].inSwitchto))
    else if m.fromSwitchto then m.cpu < |s.slots| && OnlyCpu(s, s', m.cpu, s.slots[m.cpu].(inSwitchto := false))
    else s'.slots == s.slots
  }

  /** What a stopped task has used, and the forgotten time of its submission. */
  function StoppedTask(s: State, m: Stopped): Task
    requires StoppedLegal(s, m)
  {
    var task := s.tasks[m.task];
    var task1 := if Scheduled(s, m.task) || m.fromSwitchto then Accounted(task, m.runtime) else task;
    if m.fromSwitchto then task1 else task1.(startSubmit := None)
  }

  lemma BlockedEffect(s: State, m: Stopped)
    requires Inv(s) && StoppedLegal(s, m)
    ensures StoppedDefined(s, m)
    ensures var s' := TaskBlocked(s, m);
            && (if Scheduled(s, m.task) || m.fromSwitchto then SameQueues(s, s') else TakenOut(s, s', m.task))
            && s'.tasks == s.tasks[m.task := StoppedTask(s, m).(runState := Blocked, prioBoost := false)]
            && CpuLeft(s, s', m) && SameMachine(s, s') && s'.yielding == s.yielding && s'.counters == Reaped(s, m.task)
  {
    MessagesAreDefined(s, m);
    if Scheduled(s, m.task) {
      RunningBlocks(s, m);
    } else if !m.fromSwitchto {
      RemovalEffect(SetBoost(s, m.task, false), m.task);
    }
  }

  lemma RunningBlocks(s: State, m: Stopped)
    requires Inv(s) && StoppedLegal(s, m) && StoppedDefined(s, m) && Scheduled(s, m.task)
    ensures var s' := TaskBlocked(s, m);
            && SameQueues(s, s') && s'.tasks == s.tasks[m.task := StoppedTask(s, m).(runState := Blocked, prioBoost := false)]
            && CpuLeft(s, s', m) && SameMachine(s, s') && s'.yielding == s.yielding && s'.counters == Reaped(s, m.task)
  {
    ScheduledHasCpu(s, m.task);
    LeaveEffect(SetBoost(s, m.task, false), m.task, m.runtime, s.tasks[m.task].cpu.value);
  }

  lemma RemovalEffect(s: State, t: TaskId)
    requires t in s.tasks && s.tasks[t].runState.Queued? && (t in s.runQ || t in s.lowQ)
    ensures var s' := RemoveFromRunqueue(s, t, Blocked);
            TakenOut(s, s', t) && s'.tasks == s.tasks[t := s.tasks[t].(runState := Blocked)]
  {
    if t in s.runQ {
      var i := IndexOf(s.runQ, t);
      assert Without(s.runQ, Erase(s.runQ, t), t);
    } else {
      var i := IndexOf(s.lowQ, t);
      assert Without(s.lowQ, Erase(s.lowQ, t), t);
    }
  }

  /** A preempted task goes to the front of its queue; one that is queued already only becomes preempted. */
  lemma PreemptedEffect(s: State, m: Stopped)
    requires Inv(s) && StoppedLegal(s, m)
    ensures StoppedDefined(s, m)
    ensures var s' := TaskPreempted(s, m);
            && (if Scheduled(s, m.task) || m.fromSwitchto then PutFirst(s, s', m.task, s.tasks[m.task].highPriority)
                else SameQueues(s, s'))
            && Becomes(s, s', m.task, StoppedTask(s, m).(runState := Queued, preempted := true, prioBoost := false))
            && CpuLeft(s, s', m) && SameMachine(s, s') && s'.yielding == s.yielding && s'.counters == Reaped(s, m.task)
  {
    var t, s1 := m.task, SetFlags(s, m.task, false, true);
    MessagesAreDefined(s, m);
    if Scheduled(s, t) {
      ScheduledHasCpu(s, t);
      LeaveEffect(s1, t, m.runtime, s.tasks[t].cpu.value);
    }
  }

  /** A yielding task is set aside behind the others; one that is queued stays where it is. */
  lemma YieldEffect(s: State, m: Stopped)
    requires Inv(s) && StoppedLegal(s, m)
    ensures StoppedDefined(s, m)
    ensures var s' := TaskYield(s, m);
            var leaves := Scheduled(s, m.task) || m.fromSwitchto;
            && s'.yielding == (if leaves then s.yielding + [m.task] else s.yielding) && SameQueues(s, s')
            && s'.tasks == s.tasks[m.task := StoppedTask(s, m).(runState := if leaves then Yielding else Queued,
                                                                prioBoost := false)]
            && CpuLeft(s, s', m) && SameMachine(s, s') && s'.counters == Reaped(s, m.task)
  {
    var t, s1 := m.task, SetBoost(s, m.task, false);
    MessagesAreDefined(s, m);
    if Scheduled(s, t) {
      ScheduledHasCpu(s, t);
      LeaveEffect(s1, t, m.runtime, s.tasks[t].cpu.value);
    }
  }

  lemma SwitchtoEffect(s: State, m: Stopped)
    requires Inv(s) && SwitchtoLegal(s, m)
    ensures StoppedDefined(s, m)
    ensures var s' := TaskSwitchto(s, m);
            var task := s.tasks[m.task];
            && SameMachine(s, s') && s'.yielding == s.yielding && s'.counters == Reaped(s, m.task)
            && |s'.slots| == |s.slots| && s'.slots[m.cpu].inSwitchto
            && (forall c :: 0 <= c < |s.slots| && c != m.cpu ==> s'.slots[c].inSwitchto == s.slots[c].inSwitchto)
            && (if Scheduled(s, m.task) then
                  && SameQueues(s, s')
                  && s'.tasks == s.tasks[m.task := Accounted(task, m.runtime).(runState := Blocked, prioBoost := false)]
                  && (forall c :: 0 <= c < |s.slots| ==>
                        if task.cpu == Some(c) then s'.slots[c].current == None && s'.slots[c].next == None
                        else s'.slots[c].current == s.slots[c].current && s'.slots[c].next == s.slots[c].next)
                else
                  && TakenOut(s, s', m.task)
                  && s'.tasks == s.tasks[m.task := task.(runState := Blocked, prioBoost := false)]
                  && (forall c :: 0 <= c < |s.slots| ==>
                        s'.slots[c].current == s.slots[c].current && s'.slots[c].next == s.slots[c].next))
  {
    var t := m.task;
    var s1 := SetBoost(SetInSwitchto(s, m.cpu, true), t, false);
    MessagesAreDefined(s, m);
    if Scheduled(s, t) {
      ScheduledHasCpu(s, t);
      LeaveEffect(s1, t, m.runtime, s.tasks[t].cpu.value);
    } else {
      RemovalEffect(s1, t);
    }
  }

  // ---------------------------------------------------------------- the end of a round and migrations

  /** The tasks of a list that go to the queue of the given priority, in front or at the back. */
  ghost function Going(s: State, list: seq<TaskId>, high: bool, first: bool): seq<TaskId>
    requires forall i :: 0 <= i < |list| ==> list[i] in s.tasks
  {
    if list == [] then []
    else
      var task := s.tasks[list[0]];
      (if task.highPriority == high && (task.prioBoost || task.preempted) == first then [list[0]] else [])
      + Going(s, list[1..], high, first)
  }

  ghost function Reversed(list: seq<TaskId>): seq<TaskId> {
    if list == [] then [] else Reversed(list[1..]) + [list[0]]
  }

  lemma {:induction false} GoingFrame(s: State, s': State, list: seq<TaskId>, high: bool, first: bool)
    requires forall i :: 0 <= i < |list| ==>
               && list[i] in s.tasks && list[i] in s'.tasks
               && s'.tasks[list[i]].highPriority == s.tasks[list[i]].highPriority
               && s'.tasks[list[i]].prioBoost == s.tasks[list[i]].prioBoost
               && s'.tasks[list[i]].preempted == s.tasks[list[i]].preempted
    ensures Going(s', list, high, first) == Going(s, list, high, first)
  {
    if list != [] {
      GoingFrame(s, s', list[1..], high, first);
    }
  }

  lemma YieldingIsKnown(s: State)
    requires Inv(s)
    ensures forall i :: 0 <= i < |s.yielding| ==> s.yielding[i] in s.tasks
  {
    Aspects(s);
  }

  /**
    The yielding tasks go back to the queues of their priorities: those that are boosted or preempted in
    front, the last one first, the others behind in their order.
   */
  lemma {:induction false} RequeueEffect(s: State)
    requires Inv(s)
    ensures forall i :: 0 <= i < |s.yielding| ==> s.yielding[i] in s.tasks
    ensures Requeue(s).runQ == Reversed(Going(s, s.yielding, true, true)) + s.runQ + Going(s, s.yielding, true, false)
    ensures Requeue(s).lowQ == Reversed(Going(s, s.yielding, false, true)) + s.lowQ + Going(s, s.yielding, false, false)
    decreases |s.yielding|
  {
    YieldingIsKnown(s);
    if s.yielding != [] {
      RequeueOneKeepsInv(s);
      var t, rest := s.yielding[0], s.yielding[1..];
      var s1 := Enqueue(s.(yielding := rest), t);
      RequeueEffect(s1);
      RequeueTurn(s, s1, t, rest, true, s.runQ, s1.runQ);
      RequeueTurn(s, s1, t, rest, false, s.lowQ, s1.lowQ);
    }
  }

  /** One turn, as far as one queue is concerned. */
  lemma RequeueTurn(s: State, s1: State, t: TaskId, rest: seq<TaskId>, high: bool, q: seq<TaskId>, q1: seq<TaskId>)
    requires t in s.tasks && forall i :: 0 <= i < |rest| ==> rest[i] in s.tasks && rest[i] in s1.tasks
    requires forall x :: x in s.tasks && x in s1.tasks ==>
               && s1.tasks[x].highPriority == s.tasks[x].highPriority
               && s1.tasks[x].prioBoost == s.tasks[x].prioBoost && s1.tasks[x].preempted == s.tasks[x].preempted
    requires q1 == if s.tasks[t].highPriority != high then q
                   else if s.tasks[t].prioBoost || s.tasks[t].preempted then [t] + q else q + [t]
    ensures forall i :: 0 <= i < |[t] + rest| ==> ([t] + rest)[i] in s.tasks
    ensures Reversed(Going(s1, rest, high, true)) + q1 + Going(s1, rest, high, false) ==
            Reversed(Going(s, [t] + rest, high, true)) + q + Going(s, [t] + rest, high, false)
  {
    GoingFrame(s, s1, rest, high, true);
    GoingFrame(s, s1, rest, high, false);
    GoingNext(s, t, rest, high);
    Regroup(Reversed(Going(s, rest, high, true)), t, q, Going(s, rest, high, false));
  }

  lemma Regroup(front: seq<TaskId>, t: TaskId, q: seq<TaskId>, back: seq<TaskId>)
    ensures front + ([t] + q) + back == (front + [t]) + q + back
    ensures front + (q + [t]) + back == front + q + ([t] + back)
    ensures front + [] == front && [] + back == back
  {
  }

  lemma GoingNext(s: State, t: TaskId, rest: seq<TaskId>, high: bool)
    requires t in s.tasks && forall i :: 0 <= i < |rest| ==> rest[i] in s.tasks
    ensures var front, back := Going(s, rest, high, true), Going(s, rest, high, false);
            var first := s.tasks[t].prioBoost || s.tasks[t].preempted;
            && (forall i :: 0 <= i < |[t] + rest| ==> ([t] + rest)[i] in s.tasks)
            && Reversed(Going(s, [t] + rest, high, true)) ==
               Reversed(front) + (if s.tasks[t].highPriority == high && first then [t] else [])
            && Going(s, [t] + rest, high, false) ==
               (if s.tasks[t].highPriority == high && !first then [t] else []) + back
  {
    assert ([t] + rest)[1..] == rest && ([t] + rest)[0] == t;
    var front := Going(s, rest, high, true);
    assert ([t] + front)[1..] == front;
    assert [] + front == front;
  }

  /** The task that runs on the new CPU of the agent makes way: it goes to the front of its queue. */
  lemma VacateEffect(s: State, c: CpuId)
    requires Inv(s) && c < |s.slots| && s.slots[c].next.None?
    ensures s.slots[c].current.Some? ==> s.slots[c].current.value in s.tasks
    ensures var s' := Vacate(s, c);
            if s.slots[c].current.None? then s' == s
            else
              var t := s.slots[c].current.value;
              && PutFirst(s, s', t, s.tasks[t].highPriority)
              && Becomes(s, s', t, s.tasks[t].(runState := Queued, prioBoost := true))
              && OnlyCpu(s, s', c, CpuState(None, None, s.slots[c].inSwitchto))
              && SameMachine(s, s') && s'.yielding == s.yielding && s'.counters == s.counters
  {
    Aspects(s);
    assert SlotOk(s, {}, c);
  }

  /** A migration: the transaction of the new CPU is reaped, its task makes way, and the agent moves there. */
  lemma MigrationEffect(s: State, k: MigrationKernel)
    requires Inv(s)
    ensures forall c :: c in s.cfg.cpus ==> c < |s.slots|
    ensures var s' := PickNextGlobalCpu(s, k);
            var target := Target(s, k, s.cfg.cpus);
            if target.None? then s' == s
            else
              var c := target.value;
              && SyncDefined(s, c)
              && var s1 := SyncCpuState(s, c, k.txn(c));
                 && c < |s1.slots| && s'.globalCpu == c && s'.cfg == s.cfg && s'.numTasks == s.numTasks
                 && OnlyCpu(s1, s', c, CpuState(None, None, s.slots[c].inSwitchto)) && s'.yielding == s.yielding
                 && (if s1.slots[c].current.None? then SameQueues(s1, s') && s'.tasks == s1.tasks
                     else
                       var t := s1.slots[c].current.value;
                       && t in s1.tasks && PutFirst(s1, s', t, s1.tasks[t].highPriority)
                       && Becomes(s1, s', t, s1.tasks[t].(runState := Queued, prioBoost := true)))
  {
    CpusHaveSlots(s);
    var target := Target(s, k, s.cfg.cpus);
    if target.Some? {
      var c := target.value;
      MigrateIsSafe(s, c, k.txn(c));
      SyncKeepsInv(s, c, k.txn(c));
      SyncEffect(s, c, k.txn(c));
      VacateEffect(SyncCpuState(s, c, k.txn(c)), c);
    }
  }
}
