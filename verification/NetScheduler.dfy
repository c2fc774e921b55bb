/**
  The scheduler as an object whose methods update its fields (ghost_agent/net_scheduler.cc).

  `Abs()` is the value of the object. Each method is proved to have exactly the effect that the functions
  of SchedulerState and SchedulerRound describe, so the invariant and the theorems about those functions
  hold of it. An `assert` inside a method is a CHECK of the source that is proved never to fire.
 */
module NetSchedulerObject {
  import opened Options
  import opened CpuLists
  import S = SchedulerState
  import I = SchedulerInvariant
  import Steps = SchedulerSteps
  import R = SchedulerRound
  import Runs = SchedulerRuns

  type TaskId = S.TaskId

  class NetScheduler {
    const cfg: S.Config
    var tasks: map<TaskId, S.Task>
    const cpuStates: array<S.CpuState>
    var runQueue: seq<TaskId>
    var runQueueLowPriority: seq<TaskId>
    var yieldingTasks: seq<TaskId>
    var globalCpu: CpuId
    var numTasks: int
    var counters: S.Counters
    var clock: nat

    ghost function Abs(): S.State
      reads this, cpuStates
    {
      S.State(cfg, tasks, cpuStates[..], runQueue, runQueueLowPriority, yieldingTasks, globalCpu, numTasks,
              counters, clock)
    }

    /** `globalCpu` is replaced by the first CPU of the enclave when it is not one of them. */
    constructor (cpus: set<CpuId>, globalCpu: CpuId, enforceAffinity: bool, topology: Topology, maxCpus: nat)
      requires cpus != {} && forall c :: c in cpus ==> c < maxCpus
      ensures fresh(cpuStates) && cpuStates.Length == maxCpus
      ensures cfg.cpus == cpus && cfg.enforceAffinity == enforceAffinity && cfg.topology == topology
      ensures this.globalCpu == if globalCpu in cpus then globalCpu else Front(cpus)
      ensures Runs.Initial(Abs())
    {
      var home := if globalCpu in cpus then globalCpu else Front(cpus);
      cfg := S.Config(cpus, home, enforceAffinity, topology);
      tasks, runQueue, runQueueLowPriority, yieldingTasks := map[], [], [], [];
      cpuStates := new S.CpuState[maxCpus](_ => S.IDLE_SLOT);
      this.globalCpu, numTasks, counters, clock := home, 0, S.Counters(0, 0, 0, 0, 0), 0;
    }

    method PutSlot(c: CpuId, slot: S.CpuState)
      requires c < cpuStates.Length
      modifies cpuStates
      ensures Abs() == S.PutSlot(old(Abs()), c, slot)
    {
      cpuStates[c] := slot;
      assert cpuStates[..] == old(cpuStates[..])[c := slot];
    }

    method PutTask(t: TaskId, task: S.Task)
      modifies this`tasks
      ensures Abs() == S.PutTask(old(Abs()), t, task)
    {
      tasks := tasks[t := task];
    }

    method UpdateTaskRuntime(t: TaskId, runtime: nat)
      requires t in tasks && tasks[t].runtime <= runtime
      modifies this`tasks
      ensures Abs() == S.UpdateRuntime(old(Abs()), t, runtime)
    {
      var task := tasks[t];
      PutTask(t, task.(elapsed := task.elapsed + (runtime - task.runtime), runtime := runtime));
    }

    method CpuEnteringSwitchto(c: CpuId)
      requires c < cpuStates.Length && !cpuStates[c].inSwitchto
      modifies cpuStates
      ensures Abs() == S.SetInSwitchto(old(Abs()), c, true)
    {
      PutSlot(c, cpuStates[c].(inSwitchto := true));
    }

    method CpuLeavingSwitchto(c: CpuId)
      requires c < cpuStates.Length && cpuStates[c].inSwitchto
      modifies cpuStates
      ensures Abs() == S.SetInSwitchto(old(Abs()), c, false)
    {
      PutSlot(c, cpuStates[c].(inSwitchto := false));
    }

    // -------------------------------------------------------------- run queues

    method Enqueue(t: TaskId)
      requires t in tasks
      modifies this`tasks, this`runQueue, this`runQueueLowPriority, this`clock
      ensures Abs() == S.Enqueue(old(Abs()), t)
    {
      var front := tasks[t].prioBoost || tasks[t].preempted;
      clock := clock + 1;
      var stamp: int := if front then 0 - clock else clock;
      PutTask(t, tasks[t].(runState := S.Queued, stamp := stamp));
      if tasks[t].highPriority {
        runQueue := if front then [t] + runQueue else runQueue + [t];
      } else {
        runQueueLowPriority := if front then [t] + runQueueLowPriority else runQueueLowPriority + [t];
      }
    }

    method Dequeue() returns (t: Option<TaskId>)
      modifies this`runQueue, this`runQueueLowPriority
      ensures t == S.Head(old(Abs())) && Abs() == S.Dequeue(old(Abs()))
    {
      if runQueue != [] {
        t := Some(runQueue[0]);
        runQueue := runQueue[1..];
        return;
      }
      if runQueueLowPriority == [] {
        return None;
      }
      t := Some(runQueueLowPriority[0]);
      runQueueLowPriority := runQueueLowPriority[1..];
    }

    /** The search of std::find. */
    static method Find(queue: seq<TaskId>, t: TaskId) returns (i: nat)
      ensures i <= |queue|
      ensures t in queue <==> i < |queue|
      ensures t in queue ==> i == S.IndexOf(queue, t)
    {
      i := 0;
      while i < |queue| && queue[i] != t
        invariant i <= |queue|
        invariant t !in queue[..i]
      {
        i := i + 1;
      }
      if i < |queue| {
        IndexOfIsFirst(queue, t, i);
      } else {
        assert queue[..i] == queue;
      }
    }

    static lemma {:induction false} IndexOfIsFirst(queue: seq<TaskId>, t: TaskId, i: nat)
      requires i < |queue| && queue[i] == t && t !in queue[..i]
      ensures S.IndexOf(queue, t) == i
    {
      if i != 0 {
        assert queue[..i][0] == queue[0];
        assert queue[1..][..i - 1] == queue[..i][1..];
        IndexOfIsFirst(queue[1..], t, i - 1);
      }
    }

    method RemoveFromRunqueue(t: TaskId, runState: S.RunState)
      requires t in tasks && tasks[t].runState.Queued?
      requires t in runQueue || t in runQueueLowPriority
      modifies this`tasks, this`runQueue, this`runQueueLowPriority
      ensures Abs() == S.RemoveFromRunqueue(old(Abs()), t, runState)
    {
      var i := Find(runQueue, t);
      if i != |runQueue| {
        runQueue := runQueue[..i] + runQueue[i + 1..];
      } else {
        i := Find(runQueueLowPriority, t);
        assert i != |runQueueLowPriority|;
        runQueueLowPriority := runQueueLowPriority[..i] + runQueueLowPriority[i + 1..];
      }
      PutTask(t, tasks[t].(runState := runState));
    }

    method Yield(t: TaskId)
      requires t in tasks
      requires tasks[t].runState.OnCpu? || tasks[t].runState.Queued? || tasks[t].runState.Blocked?
      modifies this`tasks, this`yieldingTasks
      ensures Abs() == S.Yield(old(Abs()), t)
    {
      PutTask(t, tasks[t].(runState := S.Yielding));
      yieldingTasks := yieldingTasks + [t];
    }

    method Unyield(t: TaskId)
      requires t in tasks && tasks[t].runState.Yielding? && t in yieldingTasks
      modifies this`tasks, this`yieldingTasks, this`runQueue, this`runQueueLowPriority, this`clock
      ensures Abs() == S.Unyield(old(Abs()), t)
    {
      var i := Find(yieldingTasks, t);
      assert i != |yieldingTasks|;
      yieldingTasks := yieldingTasks[..i] + yieldingTasks[i + 1..];
      Enqueue(t);
    }

    // -------------------------------------------------------------- CPU slots

    method SyncCpuState(c: CpuId, txn: S.TxnState) returns (completed: bool)
      requires S.SyncDefined(Abs(), c)
      modifies this, cpuStates
      ensures Abs() == S.SyncCpuState(old(Abs()), c, txn)
      ensures completed == S.Synced(old(Abs()), c, txn)
    {
      completed := true;
      if cpuStates[c].next.Some? {
        var next := cpuStates[c].next.value;
        assert !tasks[next].runState.Queued?;
        PutSlot(c, cpuStates[c].(next := None));
        if txn.Complete? {
          PutSlot(c, cpuStates[c].(current := Some(next)));
          PutTask(next, tasks[next].(runState := S.OnCpu, prioBoost := false, cpu := Some(c)));
          counters := counters.(success := counters.success + 1);
        } else {
          PutTask(next, tasks[next].(cpu := None, startSubmit := None));
          Enqueue(next);
          completed := false;
          if txn.CpuUnavail? {
            counters := counters.(failUnavail := counters.failUnavail + 1);
          } else {
            counters := counters.(failOther := counters.failOther + 1);
          }
        }
      }
    }

    /** `committed` is the kernel's answer to the commit. An unscheduling request is always accepted. */
    method PreemptTask(prev: TaskId, next: Option<TaskId>, committed: bool, runtime: nat) returns (inSync: bool)
      requires prev in tasks && tasks[prev].runState.OnCpu?
      requires tasks[prev].cpu.Some? && tasks[prev].cpu.value < cpuStates.Length
      requires tasks[prev].runtime <= runtime
      requires next.Some? ==> next.value in tasks && !tasks[next.value].runState.OnCpu?
      modifies this`tasks, cpuStates
      ensures inSync == (next.None? || committed)
      ensures Abs() == if inSync then S.PreemptTask(old(Abs()), prev, next, runtime) else old(Abs())
    {
      assert next != Some(prev);
      if next.Some? && !committed {
        return false;
      }
      var c := tasks[prev].cpu.value;
      PutSlot(c, cpuStates[c].(current := next));
      if next.Some? {
        PutTask(next.value, tasks[next.value].(runState := S.OnCpu, cpu := tasks[prev].cpu));
        UpdateTaskRuntime(prev, runtime);
      }
      return true;
    }

    method Displace(prev: TaskId, next: TaskId, committed: bool, runtime: nat) returns (inSync: bool)
      requires S.DisplaceDefined(Abs(), prev, next, runtime)
      modifies this`tasks, this`runQueue, this`runQueueLowPriority, this`clock, cpuStates
      ensures inSync == committed && Abs() == S.Displace(old(Abs()), prev, next, committed, runtime)
    {
      inSync := PreemptTask(prev, Some(next), committed, runtime);
      PutTask(prev, tasks[prev].(preempted := false, prioBoost := true));
      Enqueue(prev);
    }

    method SettleReplacement(c: CpuId, next: TaskId, inSync: bool)
      requires c < cpuStates.Length && next in tasks
      requires inSync || tasks[next].runState.OnCpu? || tasks[next].runState.Queued? || tasks[next].runState.Blocked?
      modifies this`tasks, this`yieldingTasks, cpuStates
      ensures Abs() == S.SettleReplacement(old(Abs()), c, next, inSync)
    {
      if inSync {
        PutTask(next, tasks[next].(prioBoost := false, preempted := false));
        PutSlot(c, cpuStates[c].(next := None));
      } else {
        PutSlot(c, cpuStates[c].(current := None));
        Yield(next);
      }
    }

    method ReplaceExistingTask(c: CpuId, next: TaskId, committed: bool, runtime: nat, now: int)
      requires S.ReplaceDefined(Abs(), c, next, runtime)
      modifies this, cpuStates
      ensures Abs() == S.ReplaceExistingTask(old(Abs()), c, next, committed, runtime, now)
    {
      var inSync := Displace(cpuStates[c].current.value, next, committed, runtime);
      SettleReplacement(c, next, inSync);
      PutTask(next, tasks[next].(startSubmit := Some(now)));
      counters := counters.(total := counters.total + 1, replaced := counters.replaced + 1);
    }

    // -------------------------------------------------------------- kernel messages

    /** The CPUs of the enclave that the affinity mask of a task names. */
    method EnclaveCpus(affinity: set<CpuId>) returns (allowed: set<CpuId>)
      ensures allowed == affinity * cfg.cpus
    {
      allowed := {};
      var rest := cfg.cpus;
      while rest != {}
        invariant rest <= cfg.cpus
        invariant allowed == affinity * (cfg.cpus - rest)
        decreases |rest|
      {
        var c := Front(rest);
        if c in affinity {
          allowed := allowed + {c};
        }
        rest := rest - {c};
      }
    }

    method AddTask(t: TaskId, runnable: bool, runtime: nat, uninitialised: bool)
      modifies this`tasks, this`runQueue, this`runQueueLowPriority, this`clock
      ensures Abs() == S.AddTask(old(Abs()), t, runnable, runtime, uninitialised)
    {
      PutTask(t, S.Task(S.Blocked, None, false, false, uninitialised, {}, None, runtime, 0, 0));
      if runnable {
        Enqueue(t);
      }
    }

    method TaskNew(t: TaskId, runnable: bool, runtime: nat, affinity: set<CpuId>, uninitialised: bool,
                   highPriority: bool)
      requires I.Inv(Abs()) && t !in tasks && affinity * cfg.cpus != {}
      modifies this
      ensures Abs() == S.TaskNew(old(Abs()), t, runnable, runtime, affinity, uninitialised, highPriority)
      ensures I.Inv(Abs())
    {
      Steps.TaskNewKeepsInv(Abs(), t, runnable, runtime, affinity, uninitialised, highPriority);
      AddTask(t, runnable, runtime, uninitialised);
      var allowed := EnclaveCpus(affinity);
      PutTask(t, tasks[t].(allowed := allowed));
      assert tasks[t].allowed != {};
      PutTask(t, tasks[t].(highPriority := highPriority));
      numTasks := numTasks + 1;
    }

    method TaskRunnable(t: TaskId, deferrable: bool)
      requires I.Inv(Abs()) && t in tasks && tasks[t].runState.Blocked?
      modifies this
      ensures Abs() == S.TaskRunnable(old(Abs()), t, deferrable) && I.Inv(Abs())
    {
      Steps.TaskRunnableKeepsInv(Abs(), t, deferrable);
      PutTask(t, tasks[t].(prioBoost := !deferrable));
      Enqueue(t);
    }

    /** The task is freed whatever its state; the invariant survives exactly when it is blocked. */
    method TaskDeparted(t: TaskId, fromSwitchto: bool, c: CpuId)
      requires I.Inv(Abs()) && t in tasks
      requires fromSwitchto ==> c < cpuStates.Length && cpuStates[c].inSwitchto
      modifies this, cpuStates
      ensures Abs() == S.TaskDeparted(old(Abs()), t, fromSwitchto, c)
      ensures I.Inv(Abs()) <==> old(tasks[t].runState.Blocked?)
    {
      Steps.DepartedKeepsInvIffBlocked(Abs(), t, fromSwitchto, c);
      if fromSwitchto {
        CpuLeavingSwitchto(c);
      }
      tasks := tasks - {t};
      numTasks := numTasks - 1;
    }

    method TaskDead(t: TaskId)
      requires I.Inv(Abs()) && t in tasks && tasks[t].runState.Blocked?
      modifies this
      ensures Abs() == S.TaskDead(old(Abs()), t) && I.Inv(Abs())
    {
      Steps.FreeKeepsInv(Abs(), t);
      tasks := tasks - {t};
      numTasks := numTasks - 1;
    }

    /** The part that the handlers share: the task was scheduled by the agent and leaves its CPU. */
    method LeaveCpu(t: TaskId, runtime: nat)
      requires S.CpuStateOfDefined(Abs(), t) && tasks[t].runtime <= runtime
      requires tasks[t].runState.Pending? ==>
                 cpuStates[tasks[t].cpu.value].next == Some(t) && cpuStates[tasks[t].cpu.value].current == None
      modifies this, cpuStates
      ensures Abs() == S.Leave(old(Abs()), t, runtime)
    {
      var c := tasks[t].cpu.value;
      UpdateTaskRuntime(t, runtime);
      if tasks[t].runState.Pending? {
        var completed := SyncCpuState(c, S.Complete);
        assert completed;
      }
      PutSlot(c, cpuStates[c].(current := None));
    }

    method TaskBlocked(m: S.Stopped)
      requires I.Inv(Abs()) && S.StoppedLegal(Abs(), m)
      modifies this, cpuStates
      ensures S.StoppedDefined(old(Abs()), m) && Abs() == S.TaskBlocked(old(Abs()), m) && I.Inv(Abs())
    {
      Steps.TaskBlockedKeepsInv(Abs(), m);
      var t := m.task;
      PutTask(t, tasks[t].(prioBoost := false));
      if tasks[t].runState.OnCpu? || tasks[t].runState.Pending? {
        LeaveCpu(t, m.runtime);
        PutTask(t, tasks[t].(runState := S.Blocked));
      } else if m.fromSwitchto {
        UpdateTaskRuntime(t, m.runtime);
        CpuLeavingSwitchto(m.cpu);
      } else {
        RemoveFromRunqueue(t, S.Blocked);
      }
      if !m.fromSwitchto {
        PutTask(t, tasks[t].(startSubmit := None));
      }
    }

    method TaskPreempted(m: S.Stopped)
      requires I.Inv(Abs()) && S.StoppedLegal(Abs(), m)
      modifies this, cpuStates
      ensures S.StoppedDefined(old(Abs()), m) && Abs() == S.TaskPreempted(old(Abs()), m) && I.Inv(Abs())
    {
      Steps.TaskPreemptedKeepsInv(Abs(), m);
      var t := m.task;
      PutTask(t, tasks[t].(preempted := true, prioBoost := false));
      if tasks[t].runState.OnCpu? || tasks[t].runState.Pending? {
        LeaveCpu(t, m.runtime);
        Enqueue(t);
      } else if m.fromSwitchto {
        UpdateTaskRuntime(t, m.runtime);
        CpuLeavingSwitchto(m.cpu);
        Enqueue(t);
      }
      if !m.fromSwitchto {
        PutTask(t, tasks[t].(startSubmit := None));
      }
    }

    method TaskYield(m: S.Stopped)
      requires I.Inv(Abs()) && S.StoppedLegal(Abs(), m)
      modifies this, cpuStates
      ensures S.StoppedDefined(old(Abs()), m) && Abs() == S.TaskYield(old(Abs()), m) && I.Inv(Abs())
    {
      Steps.TaskYieldKeepsInv(Abs(), m);
      var t := m.task;
      PutTask(t, tasks[t].(prioBoost := false));
      if tasks[t].runState.OnCpu? || tasks[t].runState.Pending? {
        LeaveCpu(t, m.runtime);
        Yield(t);
      } else if m.fromSwitchto {
        UpdateTaskRuntime(t, m.runtime);
        CpuLeavingSwitchto(m.cpu);
        Yield(t);
      }
      if !m.fromSwitchto {
        PutTask(t, tasks[t].(startSubmit := None));
      }
    }

    method TaskSwitchto(m: S.Stopped)
      requires I.Inv(Abs()) && S.SwitchtoLegal(Abs(), m)
      modifies this, cpuStates
      ensures S.StoppedDefined(old(Abs()), m) && Abs() == S.TaskSwitchto(old(Abs()), m) && I.Inv(Abs())
    {
      Steps.TaskSwitchtoKeepsInv(Abs(), m);
      var t := m.task;
      CpuEnteringSwitchto(m.cpu);
      PutTask(t, tasks[t].(prioBoost := false));
      if tasks[t].runState.OnCpu? || tasks[t].runState.Pending? {
        LeaveCpu(t, m.runtime);
        PutTask(t, tasks[t].(runState := S.Blocked));
      } else {
        RemoveFromRunqueue(t, S.Blocked);
      }
    }

    // -------------------------------------------------------------- scheduling rounds

    /** One turn of the scan. */
    method ScanCpu(c: CpuId, k: R.Kernel) returns (idle: bool, preemptable: bool)
      requires I.Inv(Abs()) && c < cpuStates.Length
      modifies this, cpuStates
      ensures S.SyncDefined(old(Abs()), c) && Abs() == R.ScanCpu(old(Abs()), k, c)
      ensures idle == R.IsIdle(old(Abs()), k, c)
      ensures preemptable == R.IsPreemptable(old(Abs()), k, c)
    {
      R.ScanDecides(Abs(), k, c);
      Steps.SyncKeepsInv(Abs(), c, k.txn(c));
      idle, preemptable := false, false;
      if c !in k.available {
        if cpuStates[c].next.Some? && c in k.committed {
          var _ := SyncCpuState(c, k.txn(c));
        }
        return;
      }
      if c == globalCpu || cpuStates[c].current.Some? {
        return;
      }
      if c !in k.committed {
        return;
      }
      var _ := SyncCpuState(c, k.txn(c));
      assert I.SlotOk(Abs(), {}, c) by { I.Aspects(Abs()); }
      if cpuStates[c].current.None? && !cpuStates[c].inSwitchto {
        idle := true;
      } else if cpuStates[c].current.Some? && cpuStates[c].current.value in k.memcached && c in k.draw
                && tasks[cpuStates[c].current.value].startSubmit.Some?
                && k.scanTime(c) - tasks[cpuStates[c].current.value].startSubmit.value > R.PREEMPT_AFTER {
        preemptable := true;
      } else if cpuStates[c].current.Some? && cpuStates[c].current.value !in k.memcached {
        preemptable := true;
      }
    }

    /** The scan of all CPUs. */
    method ScanCpus(k: R.Kernel) returns (avail: set<CpuId>, low: set<CpuId>)
      requires I.Inv(Abs()) && R.RuntimesGrow(Abs(), k)
      modifies this, cpuStates
      ensures avail == R.Idle(old(Abs()), k, cfg.cpus)
      ensures low == R.PreemptableCpus(old(Abs()), k, cfg.cpus)
      ensures Abs() == R.ScanState(old(Abs()), k, cfg.cpus)
    {
      avail, low := {}, {};
      var rest := cfg.cpus;
      ghost var allIdle := R.Idle(Abs(), k, cfg.cpus);
      ghost var allPreemptable := R.PreemptableCpus(Abs(), k, cfg.cpus);
      ghost var final := R.ScanState(Abs(), k, cfg.cpus);
      while rest != {}
        invariant rest <= cfg.cpus
        invariant I.Inv(Abs()) && R.RuntimesGrow(Abs(), k)
        invariant R.ScanState(Abs(), k, rest) == final
        invariant avail + R.Idle(Abs(), k, rest) == allIdle
        invariant low + R.PreemptableCpus(Abs(), k, rest) == allPreemptable
        decreases |rest|
      {
        var c := Front(rest);
        ScanStep(Abs(), k, c, rest);
        var idle, preemptable := ScanCpu(c, k);
        rest := rest - {c};
        Regroup(avail, if idle then {c} else {}, R.Idle(Abs(), k, rest));
        Regroup(low, if preemptable then {c} else {}, R.PreemptableCpus(Abs(), k, rest));
        avail := avail + (if idle then {c} else {});
        low := low + (if preemptable then {c} else {});
      }
      assert R.Idle(Abs(), k, rest) == {} && R.PreemptableCpus(Abs(), k, rest) == {};
    }

    static lemma Regroup(a: set<CpuId>, b: set<CpuId>, c: set<CpuId>)
      ensures a + b + c == a + (b + c)
    {
    }

    /** What one turn of the scan leaves for the other turns. */
    static lemma ScanStep(s: S.State, k: R.Kernel, c: CpuId, rest: set<CpuId>)
      requires I.Inv(s) && rest <= s.cfg.cpus && R.RuntimesGrow(s, k) && rest != {} && c == Front(rest)
      ensures c < |s.slots| && S.SyncDefined(s, c)
      ensures var s' := R.ScanCpu(s, k, c);
              && I.Inv(s') && R.RuntimesGrow(s', k) && s'.cfg == s.cfg
              && R.ScanState(s', k, rest - {c}) == R.ScanState(s, k, rest)
              && R.Idle(s, k, rest) == (if R.IsIdle(s, k, c) then {c} else {}) + R.Idle(s', k, rest - {c})
              && R.PreemptableCpus(s, k, rest) ==
                 (if R.IsPreemptable(s, k, c) then {c} else {}) + R.PreemptableCpus(s', k, rest - {c})
    {
      R.CpusHaveSlots(s);
      R.ScanCpuKeeps(s, k, c);
      R.ScanKeepsRest(s, k, c, rest - {c});
      ScanStepSets(s, k, c, rest);
    }

    static lemma ScanStepSets(s: S.State, k: R.Kernel, c: CpuId, rest: set<CpuId>)
      requires c in rest
      ensures R.Idle(s, k, rest) == R.Idle(s, k, rest - {c}) + (if R.IsIdle(s, k, c) then {c} else {})
      ensures R.PreemptableCpus(s, k, rest) ==
              R.PreemptableCpus(s, k, rest - {c}) + (if R.IsPreemptable(s, k, c) then {c} else {})
    {
    }

    /** Opens a transaction for a dequeued task on an idle CPU. */
    method AssignTask(c: CpuId, next: TaskId, now: int)
      requires c < cpuStates.Length && cpuStates[c].next == None && cpuStates[c].current == None
      requires next in tasks && !tasks[next].runState.Pending?
      modifies this, cpuStates
      ensures Abs() == S.Assign(old(Abs()), c, next, now)
    {
      PutSlot(c, cpuStates[c].(next := Some(next)));
      PutTask(next, tasks[next].(runState := S.Pending, cpu := Some(c)));
      if tasks[next].preempted {
        PutTask(next, tasks[next].(prioBoost := true, preempted := false));
      }
      PutTask(next, tasks[next].(startSubmit := Some(now)));
      counters := counters.(total := counters.total + 1);
    }

    /** One turn of the placement loop, for the task that was just dequeued. */
    method PlaceTask(next: TaskId, avail: set<CpuId>, low: set<CpuId>, k: R.Kernel, ghost r: R.Round)
      returns (avail': set<CpuId>, low': set<CpuId>)
      requires R.RoundInv(r, k) && r.avail == avail && r.low == low
      requires S.Head(r.s) == Some(next) && Abs() == S.Dequeue(r.s)
      modifies this, cpuStates
      ensures var r' := R.PlaceOne(r, k);
              Abs() == r'.s && avail' == r'.avail && low' == r'.low
    {
      R.TurnIsDefined(r, k);
      avail', low' := avail, low;
      assert !tasks[next].runState.Pending?;
      if next in k.stale {
        Yield(next);
        return;
      }
      var cpu: Option<CpuId> := None;
      if avail != {} {
        cpu := PickNextCpu(avail, tasks[next].allowed, tasks[next].cpu, cfg.enforceAffinity, cfg.topology);
      }
      assert cpu == R.IdleChoice(r, next);
      if cpu.None? && low != {} {
        cpu := PickNextCpu(low, tasks[next].allowed, tasks[next].cpu, cfg.enforceAffinity, cfg.topology);
        if cpu.Some? {
          var c := cpu.value;
          low' := low - {c};
          ReplaceExistingTask(c, next, c in k.commits, k.runtime(cpuStates[c].current.value), k.submitTime(c));
          return;
        }
      }
      if cpu.None? {
        Yield(next);
        return;
      }
      var c := cpu.value;
      AssignTask(c, next, k.submitTime(c));
      avail' := avail - {c};
    }

    /** The placement loop. It ends although a replaced task goes back to the queue it drains. */
    method PlaceTasks(avail0: set<CpuId>, low0: set<CpuId>, k: R.Kernel)
      requires R.RoundInv(R.Round(Abs(), avail0, low0, {}, []), k)
      modifies this, cpuStates
      ensures Abs() == R.PlaceAll(R.Round(old(Abs()), avail0, low0, {}, []), k).s
    {
      var avail, low := avail0, low0;
      ghost var r := R.Round(Abs(), avail0, low0, {}, []);
      ghost var final := R.PlaceAll(r, k);
      while avail != {} || low != {}
        invariant r.s == Abs() && r.avail == avail && r.low == low
        invariant R.RoundInv(r, k) && R.PlaceAll(r, k) == final
        decreases R.Measure(r)
      {
        var next := Dequeue();
        if next.None? {
          break;
        }
        R.PlaceOneKeeps(r, k);
        avail, low := PlaceTask(next.value, avail, low, k, r);
        r := R.PlaceOne(r, k);
      }
    }

    /** Yielding tasks are moved back to the run queues; then the list is cleared. */
    method RequeueYielding()
      requires I.Inv(Abs())
      modifies this
      ensures Abs() == R.Requeue(old(Abs()))
    {
      var i := 0;
      var list := yieldingTasks;
      ghost var s := Abs();
      ghost var final := R.Requeue(s);
      while i < |list|
        invariant i <= |list|
        invariant s == Abs().(yielding := list[i..])
        invariant I.Inv(s) && R.Requeue(s) == final
      {
        assert s.yielding[0] == list[i] && s.yielding[1..] == list[i + 1..];
        R.RequeueOneKeepsInv(s);
        assert tasks[list[i]].runState.Yielding?;
        EnqueueIgnoresYielding(Abs(), list[i], list[i + 1..]);
        Enqueue(list[i]);
        s := S.Enqueue(s.(yielding := s.yielding[1..]), s.yielding[0]);
        i := i + 1;
      }
      yieldingTasks := [];
    }

    static lemma EnqueueIgnoresYielding(s: S.State, t: TaskId, yielding: seq<TaskId>)
      requires t in s.tasks
      ensures S.Enqueue(s.(yielding := yielding), t) == S.Enqueue(s, t).(yielding := yielding)
    {
    }

    method GlobalSchedule(k: R.Kernel)
      requires I.Inv(Abs()) && R.RuntimesGrow(Abs(), k)
      modifies this, cpuStates
      ensures Abs() == R.GlobalSchedule(old(Abs()), k) && I.Inv(Abs())
    {
      ghost var r := R.Scanned(Abs(), k);
      var avail, low := ScanCpus(k);
      PlaceTasks(avail, low, k);
      RequeueYielding();
    }

    // -------------------------------------------------------------- migration of the global agent

    /** The search for a CPU to move to. */
    method FindTarget(k: R.MigrationKernel) returns (target: Option<CpuId>)
      requires forall c :: c in cfg.cpus ==> c < cpuStates.Length
      ensures target == R.Target(Abs(), k, cfg.cpus)
    {
      var rest := cfg.cpus;
      while rest != {}
        invariant rest <= cfg.cpus
        invariant R.Target(Abs(), k, rest) == R.Target(Abs(), k, cfg.cpus)
        decreases |rest|
      {
        var c := Front(rest);
        if cfg.home != globalCpu && c in k.homeReady {
          return Some(cfg.home);
        }
        rest := rest - {c};
        if cpuStates[c].inSwitchto {
          continue;
        }
        if cfg.topology.numaNode(c) != cfg.topology.numaNode(cfg.home) {
          continue;
        }
        if c != globalCpu && c in k.available && c in k.committed {
          return Some(c);
        }
      }
      return None;
    }

    method PickNextGlobalCpu(k: R.MigrationKernel)
      requires I.Inv(Abs())
      modifies this, cpuStates
      ensures Abs() == R.PickNextGlobalCpu(old(Abs()), k) && I.Inv(Abs())
    {
      R.CpusHaveSlots(Abs());
      var target := FindTarget(k);
      if target.None? {
        return;
      }
      var c := target.value;
      R.MigrateIsSafe(Abs(), c, k.txn(c));
      Steps.SyncKeepsInv(Abs(), c, k.txn(c));
      var _ := SyncCpuState(c, k.txn(c));
      Evict(c);
      globalCpu := c;
    }

    /** The running task of c, if there is one, makes way. */
    method Evict(c: CpuId)
      requires I.Inv(Abs()) && c < cpuStates.Length && cpuStates[c].next.None?
      modifies this, cpuStates
      ensures cpuStates.Length > c && (old(cpuStates[c]).current.Some? ==> old(cpuStates[c]).current.value in old(tasks))
      ensures Abs() == R.Vacate(old(Abs()), c)
    {
      R.VacateKeepsInv(Abs(), c);
      if cpuStates[c].current.Some? {
        var prev := cpuStates[c].current.value;
        assert tasks[prev].runState.OnCpu? && tasks[prev].cpu == Some(c) by {
          I.Aspects(Abs());
          assert I.SlotOk(Abs(), {}, c);
        }
        var inSync := PreemptTask(prev, None, true, tasks[prev].runtime);
        assert inSync;
        PutTask(prev, tasks[prev].(prioBoost := true));
        Enqueue(prev);
        PutSlot(c, cpuStates[c].(current := None));
        assert cpuStates[..] == old(cpuStates[..])[c := old(cpuStates[c]).(current := None)];
      }
    }
  }
}
