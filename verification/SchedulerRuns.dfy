/** Whole runs of the scheduler: any sequence of kernel messages, rounds and migrations. */
module SchedulerRuns {
  import opened Options
  import opened CpuLists
  import opened SchedulerState
  import opened SchedulerInvariant
  import opened SchedulerSteps
  import opened SchedulerRound

  datatype Event =
    | New(task: TaskId, runnable: bool, runtime: nat, affinity: set<CpuId>, uninitialised: bool, highPriority: bool)
    | Wakeup(task: TaskId, deferrable: bool)
    | Departed(task: TaskId, fromSwitchto: bool, cpu: CpuId)
    | Dead(task: TaskId)
    | Block(m: Stopped)
    | Preempt(m: Stopped)
    | SchedYield(m: Stopped)
    | Switchto(m: Stopped)
    | Schedule(k: Kernel)
    | Migrate(mk: MigrationKernel)

  /**
    What the kernel guarantees about its messages: which tasks they are about, in which of the run states
    and with which switchto flags they can arrive. Queues, the yield list and the tasks of CPU slots are
    not mentioned.
   */
  ghost predicate Legal(s: State, e: Event) {
    match e
    case New(t, _, _, affinity, _, _) => t !in s.tasks && affinity * s.cfg.cpus != {}
    case Wakeup(t, _) => t in s.tasks && s.tasks[t].runState.Blocked?
    case Departed(t, fromSwitchto, c) =>
      t in s.tasks && (fromSwitchto ==> c < |s.slots| && s.slots[c].inSwitchto)
    case Dead(t) => t in s.tasks && s.tasks[t].runState.Blocked?
    case Block(m) => StoppedLegal(s, m)
    case Preempt(m) => StoppedLegal(s, m)
    case SchedYield(m) => StoppedLegal(s, m)
    case Switchto(m) => SwitchtoLegal(s, m)
    case Schedule(k) => RuntimesGrow(s, k)
    case Migrate(_) => true
  }

  /** The handler of TASK_DEPARTED frees a task without looking at its state, which must be blocked. */
  ghost predicate Sound(s: State, e: Event) {
    e.Departed? ==> e.task in s.tasks && s.tasks[e.task].runState.Blocked?
  }

  lemma MessagesDefined(s: State, e: Event)
    requires Inv(s) && Legal(s, e)
    ensures e.Block? || e.Preempt? || e.SchedYield? || e.Switchto? ==> StoppedDefined(s, e.m)
  {
    if e.Block? || e.Preempt? || e.SchedYield? || e.Switchto? {
      MessagesAreDefined(s, e.m);
    }
  }

  /** The effect of an event. That it is defined means that no CHECK of the agent fires. */
  ghost function Step(s: State, e: Event): State
    requires Inv(s) && Legal(s, e)
  {
    MessagesDefined(s, e);
    match e
    case New(t, runnable, runtime, affinity, uninitialised, high) =>
      TaskNew(s, t, runnable, runtime, affinity, uninitialised, high)
    case Wakeup(t, deferrable) => TaskRunnable(s, t, deferrable)
    case Departed(t, fromSwitchto, c) => TaskDeparted(s, t, fromSwitchto, c)
    case Dead(t) => TaskDead(s, t)
    case Block(m) => TaskBlocked(s, m)
    case Preempt(m) => TaskPreempted(s, m)
    case SchedYield(m) => TaskYield(s, m)
    case Switchto(m) => TaskSwitchto(s, m)
    case Schedule(k) => GlobalSchedule(s, k)
    case Migrate(mk) => PickNextGlobalCpu(s, mk)
  }

  /** Every event keeps the invariant, except the departure of a task that is not blocked. */
  lemma StepKeepsInv(s: State, e: Event)
    requires Inv(s) && Legal(s, e)
    ensures Inv(Step(s, e)) <==> Sound(s, e)
  {
    match e
    case New(t, runnable, runtime, affinity, uninitialised, high) =>
      TaskNewKeepsInv(s, t, runnable, runtime, affinity, uninitialised, high);
    case Wakeup(t, deferrable) => TaskRunnableKeepsInv(s, t, deferrable);
    case Departed(t, fromSwitchto, c) => DepartedKeepsInvIffBlocked(s, t, fromSwitchto, c);
    case Dead(t) => FreeKeepsInv(s, t);
    case Block(m) => TaskBlockedKeepsInv(s, m);
    case Preempt(m) => TaskPreemptedKeepsInv(s, m);
    case SchedYield(m) => TaskYieldKeepsInv(s, m);
    case Switchto(m) => TaskSwitchtoKeepsInv(s, m);
    case Schedule(k) =>
    case Migrate(mk) =>
  }

  /** The scheduler as constructed: the agent runs on its home CPU and nothing is known yet. */
  ghost predicate Initial(s: State) {
    && WellFormed(s) && s.globalCpu == s.cfg.home
    && s.tasks == map[] && s.runQ == [] && s.lowQ == [] && s.yielding == []
    && (forall c :: 0 <= c < |s.slots| ==> s.slots[c] == IDLE_SLOT)
    && s.numTasks == 0 && s.counters == Counters(0, 0, 0, 0, 0) && s.clock == 0
  }

  lemma InitialKeepsInv(s: State)
    requires Initial(s)
    ensures Inv(s)
  {
    assert OpenCpus(s.slots) == {};
    assert forall c :: 0 <= c < |s.slots| ==> SlotOk(s, {}, c);
  }

  /** Every message of the run is one the kernel may send when it arrives, and no task departs unless blocked. */
  ghost predicate LegalRun(s: State, events: seq<Event>)
    requires Inv(s)
    decreases |events|
  {
    events == [] ||
    (&& Legal(s, events[0]) && Sound(s, events[0])
     && (StepKeepsInv(s, events[0]); LegalRun(Step(s, events[0]), events[1..])))
  }

  ghost function Run(s: State, events: seq<Event>): (s': State)
    requires Inv(s) && LegalRun(s, events)
    decreases |events|
  {
    if events == [] then s
    else
      StepKeepsInv(s, events[0]);
      Run(Step(s, events[0]), events[1..])
  }

  // ---------------------------------------------------------------- what safety means

  /** How often t occurs in the run queues, in the yield list, as a running and as a pending task. */
  ghost function InQueues(s: State, t: TaskId): nat { multiset(s.runQ)[t] + multiset(s.lowQ)[t] }

  ghost function InYieldList(s: State, t: TaskId): nat { multiset(s.yielding)[t] }

  ghost function RunningOn(s: State, t: TaskId): set<CpuId> {
    set c: CpuId | c < |s.slots| && s.slots[c].current == Some(t)
  }

  ghost function PendingOn(s: State, t: TaskId): set<CpuId> {
    set c: CpuId | c < |s.slots| && s.slots[c].next == Some(t)
  }

  /** Each task is in exactly one place, and its run state names the place. */
  ghost predicate ExactlyOnePlace(s: State) {
    forall t: TaskId ::
      && (InQueues(s, t) == if t in s.tasks && s.tasks[t].runState.Queued? then 1 else 0)
      && (InYieldList(s, t) == if t in s.tasks && s.tasks[t].runState.Yielding? then 1 else 0)
      && (RunningOn(s, t) == if t in s.tasks && s.tasks[t].runState.OnCpu? && s.tasks[t].cpu.Some?
                             then {s.tasks[t].cpu.value} else {})
      && (PendingOn(s, t) == if t in s.tasks && s.tasks[t].runState.Pending? && s.tasks[t].cpu.Some?
                             then {s.tasks[t].cpu.value} else {})
  }

  ghost predicate GlobalCpuFree(s: State) {
    s.globalCpu < |s.slots| && s.slots[s.globalCpu].current.None? && s.slots[s.globalCpu].next.None?
  }

  ghost predicate AffinityRespected(s: State) {
    s.cfg.enforceAffinity ==>
      forall t, c {:trigger s.tasks[t], s.slots[c]} ::
        t in s.tasks && 0 <= c < |s.slots| && (s.slots[c].current == Some(t) || s.slots[c].next == Some(t)) ==>
          c in s.tasks[t].allowed
  }

  /** In each queue the front-pushed tasks come newest first, before the back-pushed tasks, oldest first. */
  ghost predicate QueueInOrder(s: State, queue: seq<TaskId>) {
    forall i, j :: 0 <= i < j < |queue| ==>
      queue[i] in s.tasks && queue[j] in s.tasks && s.tasks[queue[i]].stamp < s.tasks[queue[j]].stamp
  }

  ghost predicate Safe(s: State) {
    && ExactlyOnePlace(s)
    && s.numTasks == |s.tasks|
    && GlobalCpuFree(s)
    && AffinityRespected(s)
    && QueueInOrder(s, s.runQ) && QueueInOrder(s, s.lowQ)
    && Balanced(s)
  }

  lemma {:induction false} DistinctCount(queue: seq<TaskId>, t: TaskId)
    requires forall i, j :: 0 <= i < j < |queue| ==> queue[i] != queue[j]
    ensures multiset(queue)[t] == if t in queue then 1 else 0
  {
    if queue != [] {
      var n := |queue| - 1;
      var rest := queue[..n];
      assert queue == rest + [queue[n]];
      DistinctCount(rest, t);
      assert forall i :: 0 <= i < n ==> rest[i] == queue[i];
    }
  }

  lemma PlaceOfTask(s: State, t: TaskId)
    requires Inv(s)
    ensures InQueues(s, t) == if t in s.tasks && s.tasks[t].runState.Queued? then 1 else 0
    ensures InYieldList(s, t) == if t in s.tasks && s.tasks[t].runState.Yielding? then 1 else 0
  {
    Aspects(s);
    QueueDistinct(s, {}, s.runQ);
    QueueDistinct(s, {}, s.lowQ);
    DistinctCount(s.runQ, t);
    DistinctCount(s.lowQ, t);
    DistinctCount(s.yielding, t);
    if t in s.tasks {
      assert AtHome(s, t);
    }
  }

  lemma CpuOfTask(s: State, t: TaskId)
    requires Inv(s)
    ensures RunningOn(s, t) == if t in s.tasks && s.tasks[t].runState.OnCpu? && s.tasks[t].cpu.Some?
                               then {s.tasks[t].cpu.value} else {}
    ensures PendingOn(s, t) == if t in s.tasks && s.tasks[t].runState.Pending? && s.tasks[t].cpu.Some?
                               then {s.tasks[t].cpu.value} else {}
  {
    Aspects(s);
    if t in s.tasks {
      assert AtHome(s, t);
    }
    forall c | 0 <= c < |s.slots|
      ensures s.slots[c].current == Some(t) ==>
                t in s.tasks && s.tasks[t].runState.OnCpu? && s.tasks[t].cpu == Some(c)
      ensures s.slots[c].next == Some(t) ==>
                t in s.tasks && s.tasks[t].runState.Pending? && s.tasks[t].cpu == Some(c)
    {
      assert SlotOk(s, {}, c);
    }
  }

  lemma InvImpliesAffinity(s: State)
    requires Inv(s)
    ensures AffinityRespected(s) && GlobalCpuFree(s)
  {
    Aspects(s);
    assert SlotOk(s, {}, s.globalCpu);
    forall t, c | t in s.tasks && 0 <= c < |s.slots| && (s.slots[c].current == Some(t) || s.slots[c].next == Some(t))
      ensures s.cfg.enforceAffinity ==> c in s.tasks[t].allowed
    {
      assert SlotOk(s, {}, c);
      assert TaskFlags(s.cfg, s.tasks[t]);
    }
  }

  lemma InvImpliesOrder(s: State)
    requires Inv(s)
    ensures QueueInOrder(s, s.runQ) && QueueInOrder(s, s.lowQ)
  {
    Aspects(s);
    forall i, j | 0 <= i < j < |s.runQ|
      ensures s.tasks[s.runQ[i]].stamp < s.tasks[s.runQ[j]].stamp
    {
      assert Before(s.tasks, s.runQ[i], s.runQ[j]);
    }
    forall i, j | 0 <= i < j < |s.lowQ|
      ensures s.tasks[s.lowQ[i]].stamp < s.tasks[s.lowQ[j]].stamp
    {
      assert Before(s.tasks, s.lowQ[i], s.lowQ[j]);
    }
  }

  lemma InvImpliesSafe(s: State)
    requires Inv(s)
    ensures Safe(s)
  {
    Aspects(s);
    forall t: TaskId
      ensures InQueues(s, t) == if t in s.tasks && s.tasks[t].runState.Queued? then 1 else 0
      ensures InYieldList(s, t) == if t in s.tasks && s.tasks[t].runState.Yielding? then 1 else 0
    {
      PlaceOfTask(s, t);
    }
    forall t: TaskId
      ensures RunningOn(s, t) == if t in s.tasks && s.tasks[t].runState.OnCpu? && s.tasks[t].cpu.Some?
                                 then {s.tasks[t].cpu.value} else {}
      ensures PendingOn(s, t) == if t in s.tasks && s.tasks[t].runState.Pending? && s.tasks[t].cpu.Some?
                                 then {s.tasks[t].cpu.value} else {}
    {
      CpuOfTask(s, t);
    }
    InvImpliesAffinity(s);
    InvImpliesOrder(s);
  }

  lemma {:induction false} RunKeepsInv(s: State, events: seq<Event>)
    requires Inv(s) && LegalRun(s, events)
    ensures Inv(Run(s, events))
    decreases |events|
  {
    if events != [] {
      StepKeepsInv(s, events[0]);
      RunKeepsInv(Step(s, events[0]), events[1..]);
    }
  }

  /** Every run is safe, whatever the kernel sends and answers. */
  lemma EveryRunIsSafe(s: State, events: seq<Event>)
    requires Initial(s)
    ensures Inv(s)
    ensures LegalRun(s, events) ==> Safe(Run(s, events))
  {
    InitialKeepsInv(s);
    if LegalRun(s, events) {
      RunKeepsInv(s, events);
      InvImpliesSafe(Run(s, events));
    }
  }

  /** The departure of a task that is not blocked leaves an entry without a task. */
  lemma UnsoundIsUnsafe(s: State, e: Event)
    requires Inv(s) && Legal(s, e) && !Sound(s, e)
    ensures !ExactlyOnePlace(Step(s, e))
  {
    var t, s' := e.task, Step(s, e);
    assert t !in s'.tasks;
    PlaceOfTask(s, t);
    CpuOfTask(s, t);
    Aspects(s);
    assert AtHome(s, t);
    if Scheduled(s, t) {
      var c := s.tasks[t].cpu.value;
      assert c in RunningOn(s, t) || c in PendingOn(s, t);
      assert c in RunningOn(s', t) || c in PendingOn(s', t);
    } else {
      assert InQueues(s', t) == InQueues(s, t) && InYieldList(s', t) == InYieldList(s, t);
    }
  }

  /**
    After any run, the next event, whatever the kernel sends, leads to a safe state if and only if it is not
    the departure of a task that is not blocked.
   */
  lemma NextIsSafeIff(s: State, events: seq<Event>, e: Event)
    requires Initial(s)
    ensures Inv(s)
    ensures LegalRun(s, events) ==>
              var s1 := Run(s, events);
              && Inv(s1)
              && (Legal(s1, e) ==> (Safe(Step(s1, e)) <==> Sound(s1, e)))
  {
    InitialKeepsInv(s);
    if LegalRun(s, events) {
      RunKeepsInv(s, events);
      var s1 := Run(s, events);
      if Legal(s1, e) {
        StepKeepsInv(s1, e);
        if Sound(s1, e) {
          InvImpliesSafe(Step(s1, e));
        } else {
          UnsoundIsUnsafe(s1, e);
        }
      }
    }
  }

  // ---------------------------------------------------------------- small runs

  /** A scheduler as constructed, with its agent on CPU 0 and affinity enforced. */
  ghost function Fresh(cpus: set<CpuId>, slots: nat): State {
    State(Config(cpus, 0, true, Topology(c => {}, c => {}, c => 0)), map[], seq(slots, _ => IDLE_SLOT), [], [], [], 0, 0,
          Counters(0, 0, 0, 0, 0), 0)
  }

  lemma OneEvent(s: State, e: Event)
    requires Inv(s) && Legal(s, e) && Sound(s, e)
    ensures LegalRun(s, [e]) && Run(s, [e]) == Step(s, e)
  {
    StepKeepsInv(s, e);
    assert [e][1..] == [];
    assert LegalRun(Step(s, e), []) && Run(Step(s, e), []) == Step(s, e);
  }

  /** A run in which a queued task departs and stays at the head of its queue. */
  lemma DepartedMayDangle()
    ensures exists s: State, e: Event, departed: Event ::
              && Initial(s) && Inv(s) && LegalRun(s, [e]) && Inv(Run(s, [e])) && Legal(Run(s, [e]), departed)
              && departed.Departed?
              && Head(Step(Run(s, [e]), departed)) == Some(departed.task)
              && departed.task !in Step(Run(s, [e]), departed).tasks
  {
    var s := Fresh({0}, 1);
    var e := New(7, true, 0, {0}, true, true);
    var departed := Departed(7, false, 0);
    InitialKeepsInv(s);
    assert {0} * s.cfg.cpus == {0};
    OneEvent(s, e);
    StepKeepsInv(s, e);
    var s1 := Run(s, [e]);
    assert s1.runQ == [7] && 7 in s1.tasks;
    assert Legal(s1, departed);
    assert Step(s1, departed).runQ == [7];
  }

  // ---------------------------------------------------------------- queue discipline

  /**
    The next task to run after an enqueue is the enqueued one exactly when it is boosted or preempted, or
    alone in its queue, and no high priority task stands before it.
   */
  lemma EnqueueThenHead(s: State, t: TaskId)
    requires t in s.tasks && t !in s.runQ && t !in s.lowQ
    ensures var task := s.tasks[t];
            Head(Enqueue(s, t)) == Some(t) <==>
              && (task.highPriority || s.runQ == [])
              && (task.prioBoost || task.preempted || (if task.highPriority then s.runQ else s.lowQ) == [])
  {
    var s' := Enqueue(s, t);
    assert s.runQ != [] ==> s.runQ[0] in s.runQ;
    assert s.lowQ != [] ==> s.lowQ[0] in s.lowQ;
  }

  /**
    A back-pushed task (positive stamp) is taken only after every back-pushed task of the same queue that
    was enqueued before it, and after every front-pushed one.
   */
  lemma HeadIsOldest(s: State, u: TaskId)
    requires Inv(s) && Head(s).Some?
    requires u in (if s.runQ != [] then s.runQ else s.lowQ) && u != Head(s).value
    ensures var t := Head(s).value;
            && t in s.tasks && u in s.tasks
            && s.tasks[t].stamp < s.tasks[u].stamp
            && (s.tasks[t].stamp > 0 ==> s.tasks[u].stamp > 0)
  {
    InvImpliesOrder(s);
    var queue := if s.runQ != [] then s.runQ else s.lowQ;
    var i :| 0 <= i < |queue| && queue[i] == u;
    assert queue[0] == Head(s).value && 0 < i;
  }
}
