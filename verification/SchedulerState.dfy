/**
  The state of the global scheduler and the effect of each of its operations
  (ghost_agent/net_scheduler.h, ghost_agent/net_scheduler.cc).

  The functions here are the specification the methods of class NetScheduler are proved against.
  A `requires` is a CHECK of the source or the definedness of a lookup.
 */
module SchedulerState {
  import opened Options
  import opened CpuLists

  type TaskId = nat

  datatype RunState = Blocked | Queued | OnCpu | Yielding | Pending

  /** What the kernel reports of a committed transaction. */
  datatype TxnState = Complete | CpuUnavail | OtherFailure

  /**
    A task. `startSubmit` is None for the infinite future. `stamp` is a history variable: the number
    of the last enqueue of the task, negated when it was pushed to the front.
   */
  datatype Task = Task(
    runState: RunState,
    cpu: Option<CpuId>,
    prioBoost: bool,
    preempted: bool,
    highPriority: bool,
    allowed: set<CpuId>,
    startSubmit: Option<int>,
    runtime: nat,
    elapsed: nat,
    stamp: int)

  datatype CpuState = CpuState(current: Option<TaskId>, next: Option<TaskId>, inSwitchto: bool)

  datatype Config = Config(cpus: set<CpuId>, home: CpuId, enforceAffinity: bool, topology: Topology)

  /** Transaction counters. `replaced` is a history variable: it counts direct replacements. */
  datatype Counters = Counters(total: int, success: int, failUnavail: int, failOther: int, replaced: int)

  /** `clock` is a history variable: the number of enqueues so far. */
  datatype State = State(
    cfg: Config,
    tasks: map<TaskId, Task>,
    slots: seq<CpuState>,
    runQ: seq<TaskId>,
    lowQ: seq<TaskId>,
    yielding: seq<TaskId>,
    globalCpu: CpuId,
    numTasks: int,
    counters: Counters,
    clock: nat)

  const IDLE_SLOT := CpuState(None, None, false)

  // ---------------------------------------------------------------- field updates

  function PutTask(s: State, t: TaskId, task: Task): State {
    s.(tasks := s.tasks[t := task])
  }

  function PutSlot(s: State, c: CpuId, slot: CpuState): State
    requires c < |s.slots|
  {
    s.(slots := s.slots[c := slot])
  }

  function SetInSwitchto(s: State, c: CpuId, value: bool): State
    requires c < |s.slots|
  {
    PutSlot(s, c, s.slots[c].(inSwitchto := value))
  }

  function SetRunState(s: State, t: TaskId, runState: RunState): State
    requires t in s.tasks
  {
    PutTask(s, t, s.tasks[t].(runState := runState))
  }

  function SetStartSubmit(s: State, t: TaskId, time: Option<int>): State
    requires t in s.tasks
  {
    PutTask(s, t, s.tasks[t].(startSubmit := time))
  }

  function SetBoost(s: State, t: TaskId, prioBoost: bool): State
    requires t in s.tasks
  {
    PutTask(s, t, s.tasks[t].(prioBoost := prioBoost))
  }

  function SetFlags(s: State, t: TaskId, prioBoost: bool, preempted: bool): State
    requires t in s.tasks
  {
    PutTask(s, t, s.tasks[t].(prioBoost := prioBoost, preempted := preempted))
  }

  function UpdateRuntime(s: State, t: TaskId, runtime: nat): State
    requires t in s.tasks
    requires s.tasks[t].runtime <= runtime
  {
    var task := s.tasks[t];
    PutTask(s, t, task.(runtime := runtime, elapsed := task.elapsed + (runtime - task.runtime)))
  }

  // ---------------------------------------------------------------- run queues

  function Push(queue: seq<TaskId>, t: TaskId, front: bool): seq<TaskId> {
    if front then [t] + queue else queue + [t]
  }

  function Enqueue(s: State, t: TaskId): State
    requires t in s.tasks
  {
    var task := s.tasks[t];
    var front := task.prioBoost || task.preempted;
    var n := s.clock + 1;
    var s1 := s.(clock := n,
                 tasks := s.tasks[t := task.(runState := Queued, stamp := if front then -n else n)]);
    if task.highPriority then s1.(runQ := Push(s.runQ, t, front))
    else s1.(lowQ := Push(s.lowQ, t, front))
  }

  /** The task at the head of the high priority queue, else of the low priority queue. */
  function Head(s: State): Option<TaskId> {
    if s.runQ != [] then Some(s.runQ[0])
    else if s.lowQ != [] then Some(s.lowQ[0])
    else None
  }

  function Dequeue(s: State): State {
    if s.runQ != [] then s.(runQ := s.runQ[1..])
    else if s.lowQ != [] then s.(lowQ := s.lowQ[1..])
    else s
  }

  /** The position of the first occurrence. */
  function IndexOf(queue: seq<TaskId>, t: TaskId): (i: nat)
    requires t in queue
    ensures i < |queue| && queue[i] == t && t !in queue[..i]
  {
    if queue[0] == t then 0 else 1 + IndexOf(queue[1..], t)
  }

  function Erase(queue: seq<TaskId>, t: TaskId): seq<TaskId>
    requires t in queue
  {
    var i := IndexOf(queue, t);
    queue[..i] + queue[i + 1..]
  }

  function RemoveFromRunqueue(s: State, t: TaskId, runState: RunState): State
    requires t in s.tasks && s.tasks[t].runState.Queued?
    requires t in s.runQ || t in s.lowQ
  {
    var s1 := if t in s.runQ then s.(runQ := Erase(s.runQ, t)) else s.(lowQ := Erase(s.lowQ, t));
    SetRunState(s1, t, runState)
  }

  function Yield(s: State, t: TaskId): State
    requires t in s.tasks
    requires s.tasks[t].runState.OnCpu? || s.tasks[t].runState.Queued? || s.tasks[t].runState.Blocked?
  {
    SetRunState(s, t, Yielding).(yielding := s.yielding + [t])
  }

  function Unyield(s: State, t: TaskId): State
    requires t in s.tasks && s.tasks[t].runState.Yielding?
    requires t in s.yielding
  {
    Enqueue(s.(yielding := Erase(s.yielding, t)), t)
  }

  // ---------------------------------------------------------------- CPU slots

  /** The agent's own CHECKs of cpu_state_of. */
  predicate CpuStateOfDefined(s: State, t: TaskId) {
    && t in s.tasks
    && (s.tasks[t].runState.OnCpu? || s.tasks[t].runState.Pending?)
    && s.tasks[t].cpu.Some?
    && s.tasks[t].cpu.value < |s.slots|
    && var slot := s.slots[s.tasks[t].cpu.value];
       slot.current == Some(t) || slot.next == Some(t)
  }

  predicate SyncDefined(s: State, c: CpuId) {
    && c < |s.slots|
    && (s.slots[c].next.Some? ==>
          && s.slots[c].next.value in s.tasks
          && !s.tasks[s.slots[c].next.value].runState.Queued?)
  }

  /** Reaps the transaction of CPU c, if there is one, as the kernel completed it. */
  function SyncCpuState(s: State, c: CpuId, txn: TxnState): State
    requires SyncDefined(s, c)
  {
    var slot := s.slots[c];
    if slot.next.None? then s
    else
      var t := slot.next.value;
      var task := s.tasks[t];
      var s1 := PutSlot(s, c, slot.(next := None));
      if txn.Complete? then
        var s2 := PutSlot(s1, c, s1.slots[c].(current := Some(t)));
        PutTask(s2, t, task.(runState := OnCpu, prioBoost := false, cpu := Some(c)))
          .(counters := s.counters.(success := s.counters.success + 1))
      else
        var s2 := PutTask(s1, t, task.(cpu := None, startSubmit := None));
        Enqueue(s2, t).(counters :=
          if txn.CpuUnavail? then s.counters.(failUnavail := s.counters.failUnavail + 1)
          else s.counters.(failOther := s.counters.failOther + 1))
  }

  /** Whether the caller is told that no transaction failed. */
  function Synced(s: State, c: CpuId, txn: TxnState): bool
    requires c < |s.slots|
  {
    s.slots[c].next.None? || txn.Complete?
  }

  /**
    The common part of the handlers for a task that was scheduled by the agent: account its runtime,
    reap the transaction of a pending task (which the kernel then has completed), leave the CPU.
   */
  function Leave(s: State, t: TaskId, runtime: nat): State
    requires CpuStateOfDefined(s, t)
    requires s.tasks[t].runtime <= runtime
    requires s.tasks[t].runState.Pending? ==>
               var slot := s.slots[s.tasks[t].cpu.value];
               slot.next == Some(t) && slot.current == None
  {
    var c := s.tasks[t].cpu.value;
    var s1 := UpdateRuntime(s, t, runtime);
    var s2 := if s.tasks[t].runState.Pending? then SyncCpuState(s1, c, Complete) else s1;
    PutSlot(s2, c, s2.slots[c].(current := None))
  }

  /** Commits `next` (or nothing) over `prev`, which runs on a CPU; prev is left to the caller. */
  function PreemptTask(s: State, prev: TaskId, next: Option<TaskId>, runtime: nat): State
    requires prev in s.tasks && s.tasks[prev].runState.OnCpu?
    requires s.tasks[prev].cpu.Some? && s.tasks[prev].cpu.value < |s.slots|
    requires s.tasks[prev].runtime <= runtime
    requires next.Some? ==> next.value in s.tasks && !s.tasks[next.value].runState.OnCpu?
  {
    var c := s.tasks[prev].cpu.value;
    var s1 := PutSlot(s, c, s.slots[c].(current := next));
    if next.None? then s1
    else
      var s2 := PutTask(s1, next.value, s1.tasks[next.value].(runState := OnCpu, cpu := Some(c)));
      UpdateRuntime(s2, prev, runtime)
  }

  predicate ReplaceDefined(s: State, c: CpuId, next: TaskId, runtime: nat) {
    && c < |s.slots|
    && s.slots[c].current.Some?
    && var prev := s.slots[c].current.value;
       && prev in s.tasks && s.tasks[prev].runState.OnCpu? && s.tasks[prev].cpu == Some(c)
       && s.tasks[prev].runtime <= runtime
       && next in s.tasks && s.tasks[next].runState.Queued?
  }

  predicate DisplaceDefined(s: State, prev: TaskId, next: TaskId, runtime: nat) {
    && prev in s.tasks && s.tasks[prev].runState.OnCpu?
    && s.tasks[prev].cpu.Some? && s.tasks[prev].cpu.value < |s.slots| && s.tasks[prev].runtime <= runtime
    && next in s.tasks && !s.tasks[next].runState.OnCpu?
  }

  /** The begin of a replacement: the kernel is asked, and the running task is queued again, boosted. */
  function Displace(s: State, prev: TaskId, next: TaskId, committed: bool, runtime: nat): State
    requires DisplaceDefined(s, prev, next, runtime)
  {
    var s1 := if committed then PreemptTask(s, prev, Some(next), runtime) else s;
    Enqueue(SetFlags(s1, prev, true, false), prev)
  }

  /** The end of a replacement: the task has taken the CPU over, or it waits and the CPU is free. */
  function SettleReplacement(s: State, c: CpuId, next: TaskId, committed: bool): State
    requires c < |s.slots| && next in s.tasks
    requires committed || s.tasks[next].runState.OnCpu? || s.tasks[next].runState.Queued? || s.tasks[next].runState.Blocked?
  {
    if committed then PutSlot(SetFlags(s, next, false, false), c, s.slots[c].(next := None))
    else Yield(PutSlot(s, c, s.slots[c].(current := None)), next)
  }

  /** `committed` tells whether the kernel accepts the commit of `next` over the running task. */
  function ReplaceExistingTask(s: State, c: CpuId, next: TaskId, committed: bool, runtime: nat, now: int): State
    requires ReplaceDefined(s, c, next, runtime)
  {
    var prev := s.slots[c].current.value;
    var s1 := Displace(s, prev, next, committed, runtime);
    SetStartSubmit(SettleReplacement(s1, c, next, committed), next, Some(now))
      .(counters := s.counters.(total := s.counters.total + 1, replaced := s.counters.replaced + 1))
  }

  /** Opens a transaction for the dequeued task `next` on the idle CPU c. */
  function Assign(s: State, c: CpuId, next: TaskId, now: int): State
    requires c < |s.slots| && s.slots[c].next.None? && s.slots[c].current.None?
    requires next in s.tasks && !s.tasks[next].runState.Pending?
  {
    var task := s.tasks[next];
    var s1 := PutSlot(s, c, s.slots[c].(next := Some(next)));
    PutTask(s1, next, task.(
      runState := Pending,
      cpu := Some(c),
      prioBoost := task.prioBoost || task.preempted,
      preempted := false,
      startSubmit := Some(now)))
      .(counters := s.counters.(total := s.counters.total + 1))
  }

  // ---------------------------------------------------------------- kernel messages

  /** A new task as it is created, before its affinity and its priority are set. */
  function AddTask(s: State, t: TaskId, runnable: bool, runtime: nat, uninitialised: bool): (s': State)
    ensures t in s'.tasks
  {
    var s1 := PutTask(s, t, Task(Blocked, None, false, false, uninitialised, {}, None, runtime, 0, 0));
    if runnable then Enqueue(s1, t) else s1
  }

  /** `uninitialised` is the priority flag the task happens to hold when it is enqueued. */
  function TaskNew(s: State, t: TaskId, runnable: bool, runtime: nat, affinity: set<CpuId>,
                   uninitialised: bool, highPriority: bool): State
    requires t !in s.tasks
  {
    var s1 := AddTask(s, t, runnable, runtime, uninitialised);
    PutTask(s1, t, s1.tasks[t].(allowed := affinity * s.cfg.cpus, highPriority := highPriority))
      .(numTasks := s.numTasks + 1)
  }

  function TaskRunnable(s: State, t: TaskId, deferrable: bool): State
    requires t in s.tasks && s.tasks[t].runState.Blocked?
  {
    Enqueue(SetBoost(s, t, !deferrable), t)
  }

  function FreeTask(s: State, t: TaskId): State
    requires t in s.tasks
  {
    s.(tasks := s.tasks - {t}, numTasks := s.numTasks - 1)
  }

  function TaskDeparted(s: State, t: TaskId, fromSwitchto: bool, c: CpuId): State
    requires t in s.tasks
    requires fromSwitchto ==> c < |s.slots| && s.slots[c].inSwitchto
  {
    FreeTask(if fromSwitchto then SetInSwitchto(s, c, false) else s, t)
  }

  function TaskDead(s: State, t: TaskId): State
    requires t in s.tasks && s.tasks[t].runState.Blocked?
  {
    FreeTask(s, t)
  }

  /** A message about a task that stopped running: where it stopped and what it consumed. */
  datatype Stopped = Stopped(task: TaskId, fromSwitchto: bool, cpu: CpuId, runtime: nat)

  predicate Scheduled(s: State, t: TaskId)
    requires t in s.tasks
  {
    s.tasks[t].runState.OnCpu? || s.tasks[t].runState.Pending?
  }

  /** The CHECKs of the handlers that speak about the kernel's messages, not about the agent. */
  predicate StoppedLegal(s: State, m: Stopped) {
    && m.task in s.tasks
    && (Scheduled(s, m.task) || m.fromSwitchto ==> s.tasks[m.task].runtime <= m.runtime)
    && (!Scheduled(s, m.task) && m.fromSwitchto ==>
          s.tasks[m.task].runState.Blocked? && m.cpu < |s.slots| && s.slots[m.cpu].inSwitchto)
    && (!Scheduled(s, m.task) && !m.fromSwitchto ==> s.tasks[m.task].runState.Queued?)
  }

  /** The CHECKs of the handlers that speak about the agent's own bookkeeping. */
  predicate StoppedDefined(s: State, m: Stopped)
    requires m.task in s.tasks
  {
    && (Scheduled(s, m.task) ==> CpuStateOfDefined(s, m.task))
    && (s.tasks[m.task].runState.Pending? && CpuStateOfDefined(s, m.task) ==>
          var slot := s.slots[s.tasks[m.task].cpu.value];
          slot.next == Some(m.task) && slot.current == None)
    && (s.tasks[m.task].runState.Queued? ==> m.task in s.runQ || m.task in s.lowQ)
  }

  function LeaveSwitchto(s: State, m: Stopped): State
    requires m.task in s.tasks && s.tasks[m.task].runtime <= m.runtime
    requires m.cpu < |s.slots|
  {
    SetInSwitchto(UpdateRuntime(s, m.task, m.runtime), m.cpu, false)
  }

  function ForgetSubmit(s: State, m: Stopped): State
    requires m.task in s.tasks
  {
    if m.fromSwitchto then s else SetStartSubmit(s, m.task, None)
  }

  function TaskBlocked(s: State, m: Stopped): State
    requires StoppedLegal(s, m) && StoppedDefined(s, m)
  {
    var s1 := SetBoost(s, m.task, false);
    var s2 := if Scheduled(s, m.task) then SetRunState(Leave(s1, m.task, m.runtime), m.task, Blocked)
              else if m.fromSwitchto then LeaveSwitchto(s1, m)
              else RemoveFromRunqueue(s1, m.task, Blocked);
    ForgetSubmit(s2, m)
  }

  function TaskPreempted(s: State, m: Stopped): State
    requires StoppedLegal(s, m) && StoppedDefined(s, m)
  {
    var s1 := SetFlags(s, m.task, false, true);
    var s2 := if Scheduled(s, m.task) then Enqueue(Leave(s1, m.task, m.runtime), m.task)
              else if m.fromSwitchto then Enqueue(LeaveSwitchto(s1, m), m.task)
              else s1;
    ForgetSubmit(s2, m)
  }

  function TaskYield(s: State, m: Stopped): State
    requires StoppedLegal(s, m) && StoppedDefined(s, m)
  {
    var s1 := SetBoost(s, m.task, false);
    var s2 := if Scheduled(s, m.task) then Yield(Leave(s1, m.task, m.runtime), m.task)
              else if m.fromSwitchto then Yield(LeaveSwitchto(s1, m), m.task)
              else s1;
    ForgetSubmit(s2, m)
  }

  /** TASK_SWITCHTO: `m.cpu` is the CPU that enters the switchto chain. */
  predicate SwitchtoLegal(s: State, m: Stopped) {
    && m.task in s.tasks
    && m.cpu < |s.slots| && !s.slots[m.cpu].inSwitchto
    && (Scheduled(s, m.task) ==> s.tasks[m.task].runtime <= m.runtime)
    && (!Scheduled(s, m.task) ==> s.tasks[m.task].runState.Queued?)
  }

  function TaskSwitchto(s: State, m: Stopped): State
    requires SwitchtoLegal(s, m) && StoppedDefined(s, m)
  {
    var s1 := SetBoost(SetInSwitchto(s, m.cpu, true), m.task, false);
    if Scheduled(s, m.task) then SetRunState(Leave(s1, m.task, m.runtime), m.task, Blocked)
    else RemoveFromRunqueue(s1, m.task, Blocked)
  }
}
