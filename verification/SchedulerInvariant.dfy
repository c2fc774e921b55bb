/**
  What every operation of the scheduler keeps.

  `Placed(s, out)` says that every task outside `out` is exactly where its run state says and that the
  tasks of `out` are nowhere: an operation first takes tasks out of a queue or a CPU slot and then puts
  them back. `Flagged(s, out)` holds the facts about single tasks, `Balanced(s)` the transaction counters.
 */
module SchedulerInvariant {
  import opened Options
  import opened CpuLists
  import opened SchedulerState

  // ---------------------------------------------------------------- the invariant

  ghost predicate WellFormed(s: State) {
    && (forall c :: c in s.cfg.cpus ==> c < |s.slots|)
    && s.globalCpu in s.cfg.cpus
    && s.cfg.home in s.cfg.cpus
  }

  ghost predicate Before(tasks: map<TaskId, Task>, a: TaskId, b: TaskId) {
    a in tasks && b in tasks && tasks[a].stamp < tasks[b].stamp
  }

  /** A run queue holds queued tasks in the order of their stamps. */
  ghost predicate QueueOk(s: State, out: set<TaskId>, queue: seq<TaskId>) {
    && (forall i :: 0 <= i < |queue| ==>
          && queue[i] in s.tasks && queue[i] !in out
          && s.tasks[queue[i]].runState.Queued?)
    && (forall i, j {:trigger Before(s.tasks, queue[i], queue[j])} ::
          0 <= i < j < |queue| ==> Before(s.tasks, queue[i], queue[j]))
  }

  ghost predicate QueuesOk(s: State, out: set<TaskId>) {
    && QueueOk(s, out, s.runQ)
    && QueueOk(s, out, s.lowQ)
    && (forall t :: t in s.runQ ==> t !in s.lowQ)
  }

  ghost predicate YieldingOk(s: State, out: set<TaskId>) {
    && (forall i :: 0 <= i < |s.yielding| ==>
          && s.yielding[i] in s.tasks && s.yielding[i] !in out
          && s.tasks[s.yielding[i]].runState.Yielding?)
    && (forall i, j :: 0 <= i < j < |s.yielding| ==> s.yielding[i] != s.yielding[j])
  }

  ghost predicate SlotOk(s: State, out: set<TaskId>, c: CpuId)
    requires c < |s.slots|
  {
    var slot := s.slots[c];
    && (slot.current.Some? ==>
          && slot.current.value in s.tasks && slot.current.value !in out
          && s.tasks[slot.current.value].runState.OnCpu?
          && s.tasks[slot.current.value].cpu == Some(c))
    && (slot.next.Some? ==>
          && slot.next.value in s.tasks && slot.next.value !in out
          && s.tasks[slot.next.value].runState.Pending?
          && s.tasks[slot.next.value].cpu == Some(c))
    && (slot.current.None? || slot.next.None?)
    && (c !in s.cfg.cpus || c == s.globalCpu ==> slot.current.None? && slot.next.None?)
  }

  /** The place that the run state of a task names. */
  ghost predicate AtHome(s: State, t: TaskId)
    requires t in s.tasks
  {
    match s.tasks[t].runState
    case Blocked => true
    case Queued => t in s.runQ || t in s.lowQ
    case Yielding => t in s.yielding
    case OnCpu =>
      && s.tasks[t].cpu.Some? && s.tasks[t].cpu.value in s.cfg.cpus && s.tasks[t].cpu.value < |s.slots|
      && s.slots[s.tasks[t].cpu.value].current == Some(t)
    case Pending =>
      && s.tasks[t].cpu.Some? && s.tasks[t].cpu.value in s.cfg.cpus && s.tasks[t].cpu.value < |s.slots|
      && s.slots[s.tasks[t].cpu.value].next == Some(t)
  }

  ghost predicate SlotsOk(s: State, out: set<TaskId>) {
    forall c {:trigger SlotOk(s, out, c)} :: 0 <= c < |s.slots| ==> SlotOk(s, out, c)
  }

  ghost predicate HomesOk(s: State, out: set<TaskId>) {
    forall t {:trigger AtHome(s, t)} :: t in s.tasks && t !in out ==> AtHome(s, t)
  }

  ghost predicate Placed(s: State, out: set<TaskId>) {
    && WellFormed(s)
    && QueuesOk(s, out)
    && YieldingOk(s, out)
    && SlotsOk(s, out)
    && HomesOk(s, out)
    && s.numTasks == |s.tasks|
  }

  ghost predicate TaskFlags(cfg: Config, task: Task) {
    && (task.runState.OnCpu? ==> !task.prioBoost && !task.preempted)
    && (task.runState.Pending? ==> !task.preempted)
    && (task.runState.OnCpu? || task.runState.Pending? ==>
          && task.startSubmit.Some?
          && (cfg.enforceAffinity ==> task.cpu.Some? && task.cpu.value in task.allowed))
  }

  ghost predicate TaskFacts(cfg: Config, clock: nat, task: Task) {
    && task.allowed != {} && task.allowed <= cfg.cpus
    && task.stamp <= clock && -task.stamp <= clock
    && task.elapsed <= task.runtime
  }

  ghost predicate Flagged(s: State, out: set<TaskId>) {
    && (forall t {:trigger TaskFacts(s.cfg, s.clock, s.tasks[t])} :: t in s.tasks ==> TaskFacts(s.cfg, s.clock, s.tasks[t]))
    && (forall t {:trigger TaskFlags(s.cfg, s.tasks[t])} :: t in s.tasks && t !in out ==> TaskFlags(s.cfg, s.tasks[t]))
  }

  /** The CPUs with an open transaction. */
  function OpenCpus(slots: seq<CpuState>): set<CpuId> {
    set c: CpuId | c < |slots| && slots[c].next.Some?
  }

  function Open(slots: seq<CpuState>): nat {
    |OpenCpus(slots)|
  }

  ghost predicate Balanced(s: State) {
    s.counters.total ==
      s.counters.success + s.counters.failUnavail + s.counters.failOther + Open(s.slots) + s.counters.replaced
  }

  datatype Aspect = Placement | Flags | Accounting

  ghost predicate Keeps(s: State, a: Aspect) {
    match a
    case Placement => Placed(s, {})
    case Flags => Flagged(s, {})
    case Accounting => Balanced(s)
  }

  /** The invariant, one aspect at a time: naming an aspect brings its definition into a proof. */
  ghost predicate Inv(s: State) {
    forall a :: Keeps(s, a)
  }

  lemma Aspects(s: State)
    ensures Inv(s) <==> Placed(s, {}) && Flagged(s, {}) && Balanced(s)
  {
    assert Keeps(s, Placement) <==> Placed(s, {});
    assert Keeps(s, Flags) <==> Flagged(s, {});
    assert Keeps(s, Accounting) <==> Balanced(s);
  }

  // ---------------------------------------------------------------- open transactions

  lemma OpenUpdate(slots: seq<CpuState>, c: CpuId, slot: CpuState)
    requires c < |slots|
    ensures Open(slots[c := slot]) ==
            Open(slots) - (if slots[c].next.Some? then 1 else 0) + (if slot.next.Some? then 1 else 0)
  {
    var others := OpenCpus(slots) - {c};
    assert OpenCpus(slots) == if slots[c].next.Some? then others + {c} else others;
    assert OpenCpus(slots[c := slot]) == if slot.next.Some? then others + {c} else others;
  }

  // ---------------------------------------------------------------- frames

  /** Every task that was somewhere is still there, as it was. */
  ghost predicate Unmoved(s: State, out: set<TaskId>, s': State, out': set<TaskId>) {
    && s'.cfg == s.cfg && s'.globalCpu == s.globalCpu
    && s'.tasks.Keys == s.tasks.Keys
    && forall x :: x in s.tasks && x !in out ==>
         && x !in out'
         && s'.tasks[x].runState == s.tasks[x].runState
         && s'.tasks[x].cpu == s.tasks[x].cpu
         && s'.tasks[x].stamp == s.tasks[x].stamp
  }

  lemma QueueFrame(s: State, out: set<TaskId>, s': State, out': set<TaskId>, queue: seq<TaskId>)
    requires QueueOk(s, out, queue)
    requires forall x :: x in queue && x in s.tasks && x !in out ==>
               && x in s'.tasks && x !in out'
               && s'.tasks[x].runState == s.tasks[x].runState && s'.tasks[x].stamp == s.tasks[x].stamp
    ensures QueueOk(s', out', queue)
  {
    assert forall i :: 0 <= i < |queue| ==> queue[i] in queue;
    forall i, j | 0 <= i < j < |queue|
      ensures Before(s'.tasks, queue[i], queue[j])
    {
      assert Before(s.tasks, queue[i], queue[j]);
    }
  }

  lemma YieldingFrame(s: State, out: set<TaskId>, s': State, out': set<TaskId>)
    requires YieldingOk(s, out) && s'.yielding == s.yielding
    requires forall x :: x in s.yielding && x in s.tasks && x !in out ==>
               x in s'.tasks && x !in out' && s'.tasks[x].runState == s.tasks[x].runState
    ensures YieldingOk(s', out')
  {
    assert forall i :: 0 <= i < |s.yielding| ==> s.yielding[i] in s.yielding;
  }

  lemma SlotsFrame(s: State, out: set<TaskId>, s': State, out': set<TaskId>)
    requires SlotsOk(s, out) && Unmoved(s, out, s', out') && s'.slots == s.slots
    ensures SlotsOk(s', out')
  {
    forall c | 0 <= c < |s'.slots|
      ensures SlotOk(s', out', c)
    {
      assert SlotOk(s, out, c);
    }
  }

  lemma HomesFrame(s: State, out: set<TaskId>, s': State, out': set<TaskId>)
    requires HomesOk(s, out) && Unmoved(s, out, s', out')
    requires forall x :: x in s.runQ || x in s.lowQ ==> x in s'.runQ || x in s'.lowQ
    requires forall x :: x in s.yielding ==> x in s'.yielding
    requires |s'.slots| == |s.slots|
    requires forall c :: 0 <= c < |s.slots| ==>
               s'.slots[c] == s.slots[c] || (s.slots[c].current.None? && s.slots[c].next.None?)
    ensures forall x :: x in s'.tasks && x !in out ==> AtHome(s', x)
  {
    forall x | x in s'.tasks && x !in out
      ensures AtHome(s', x)
    {
      assert AtHome(s, x);
    }
  }

  lemma TaskCount(s: State, s': State)
    requires s'.tasks.Keys == s.tasks.Keys
    ensures |s'.tasks| == |s.tasks|
  {
    assert |s'.tasks| == |s'.tasks.Keys| && |s.tasks| == |s.tasks.Keys|;
  }

  lemma FlaggedFrame(s: State, out: set<TaskId>, s': State, out': set<TaskId>, t: TaskId)
    requires Flagged(s, out)
    requires s'.cfg == s.cfg && s'.clock >= s.clock
    requires forall x :: x in s'.tasks && x != t ==> x in s.tasks && s'.tasks[x] == s.tasks[x]
    requires t in s'.tasks ==> TaskFacts(s'.cfg, s'.clock, s'.tasks[t])
    requires t in s'.tasks ==> t in out' || TaskFlags(s'.cfg, s'.tasks[t])
    requires forall x :: x in out && x !in out' ==> x == t
    ensures Flagged(s', out')
  {
    forall x | x in s'.tasks
      ensures TaskFacts(s'.cfg, s'.clock, s'.tasks[x])
      ensures x !in out' ==> TaskFlags(s'.cfg, s'.tasks[x])
    {
      if x != t {
        assert TaskFacts(s.cfg, s.clock, s.tasks[x]);
        assert x !in out ==> TaskFlags(s.cfg, s.tasks[x]);
      }
    }
  }

  // ---------------------------------------------------------------- taking tasks out

  lemma PopKeepsQueue(s: State, out: set<TaskId>, queue: seq<TaskId>)
    requires QueueOk(s, out, queue) && queue != []
    ensures QueueOk(s, out + {queue[0]}, queue[1..])
    ensures queue[0] !in queue[1..]
    ensures forall x :: x in queue <==> x == queue[0] || x in queue[1..]
  {
    var rest := queue[1..];
    assert forall i :: 0 <= i < |rest| ==> rest[i] == queue[i + 1];
    forall i | 0 <= i < |rest|
      ensures rest[i] != queue[0]
    {
      assert Before(s.tasks, queue[0], queue[i + 1]);
    }
    forall i, j | 0 <= i < j < |rest|
      ensures Before(s.tasks, rest[i], rest[j])
    {
      assert Before(s.tasks, queue[i + 1], queue[j + 1]);
    }
    assert queue == [queue[0]] + rest;
  }

  lemma DequeueTakesOut(s: State, out: set<TaskId>)
    requires Placed(s, out) && Flagged(s, out)
    requires Head(s).Some?
    ensures var t := Head(s).value;
            && t in s.tasks && t !in out && s.tasks[t].runState.Queued?
            && Placed(Dequeue(s), out + {t}) && Flagged(Dequeue(s), out + {t})
  {
    var t := Head(s).value;
    var s' := Dequeue(s);
    if s.runQ != [] {
      PopKeepsQueue(s, out, s.runQ);
      QueueFrame(s, out + {t}, s', out + {t}, s'.runQ);
      QueueFrame(s, out, s', out + {t}, s'.lowQ);
    } else {
      PopKeepsQueue(s, out, s.lowQ);
      QueueFrame(s, out + {t}, s', out + {t}, s'.lowQ);
    }
    YieldingFrame(s, out, s', out + {t});
    forall x | x in s'.tasks && x !in out + {t}
      ensures AtHome(s', x)
    {
      assert AtHome(s, x);
    }
    forall c | 0 <= c < |s'.slots|
      ensures SlotOk(s', out + {t}, c)
    {
      assert SlotOk(s, out, c);
    }
    assert TaskFacts(s.cfg, s.clock, s.tasks[t]);
    FlaggedFrame(s, out, s', out + {t}, t);
  }

  lemma EraseKeepsOthers(queue: seq<TaskId>, t: TaskId)
    requires t in queue
    requires forall i, j :: 0 <= i < j < |queue| ==> queue[i] != queue[j]
    ensures t !in Erase(queue, t)
    ensures forall x :: x != t && x in queue ==> x in Erase(queue, t)
    ensures forall x :: x in Erase(queue, t) ==> x in queue
  {
    var n := IndexOf(queue, t);
    var rest := Erase(queue, t);
    assert forall i :: 0 <= i < |rest| ==> rest[i] == queue[if i < n then i else i + 1];
    forall x | x in queue && x != t
      ensures x in rest
    {
      var i :| 0 <= i < |queue| && queue[i] == x;
      assert rest[if i < n then i else i - 1] == x;
    }
  }

  lemma QueueDistinct(s: State, out: set<TaskId>, queue: seq<TaskId>)
    requires QueueOk(s, out, queue)
    ensures forall i, j :: 0 <= i < j < |queue| ==> queue[i] != queue[j]
  {
    forall i, j | 0 <= i < j < |queue|
      ensures queue[i] != queue[j]
    {
      assert Before(s.tasks, queue[i], queue[j]);
    }
  }

  lemma EraseKeepsQueue(s: State, out: set<TaskId>, queue: seq<TaskId>, t: TaskId)
    requires QueueOk(s, out, queue) && t in queue
    ensures QueueOk(s, out + {t}, Erase(queue, t))
  {
    QueueDistinct(s, out, queue);
    EraseKeepsOthers(queue, t);
    var n := IndexOf(queue, t);
    var rest := Erase(queue, t);
    assert forall i :: 0 <= i < |rest| ==> rest[i] == queue[if i < n then i else i + 1];
    forall i | 0 <= i < |rest|
      ensures rest[i] in s.tasks && rest[i] !in out + {t} && s.tasks[rest[i]].runState.Queued?
    {
      assert rest[i] in rest;
    }
    forall i, j | 0 <= i < j < |rest|
      ensures Before(s.tasks, rest[i], rest[j])
    {
      assert Before(s.tasks, queue[if i < n then i else i + 1], queue[if j < n then j else j + 1]);
    }
  }

  lemma EraseKeepsQueues(s: State, t: TaskId)
    requires QueuesOk(s, {})
    requires t in s.tasks && s.tasks[t].runState.Queued?
    requires t in s.runQ || t in s.lowQ
    ensures var s' := RemoveFromRunqueue(s, t, Blocked);
            && QueuesOk(s', {})
            && forall x :: x in s'.runQ || x in s'.lowQ <==> x != t && (x in s.runQ || x in s.lowQ)
  {
    var s' := RemoveFromRunqueue(s, t, Blocked);
    QueueDistinct(s, {}, s.runQ);
    QueueDistinct(s, {}, s.lowQ);
    if t in s.runQ {
      EraseKeepsQueue(s, {}, s.runQ, t);
      EraseKeepsOthers(s.runQ, t);
      QueueFrame(s, {} + {t}, s', {}, s'.runQ);
      QueueFrame(s, {}, s', {}, s'.lowQ);
    } else {
      EraseKeepsQueue(s, {}, s.lowQ, t);
      EraseKeepsOthers(s.lowQ, t);
      QueueFrame(s, {}, s', {}, s'.runQ);
      QueueFrame(s, {} + {t}, s', {}, s'.lowQ);
    }
  }

  lemma EraseKeepsSlots(s: State, t: TaskId)
    requires SlotsOk(s, {}) && HomesOk(s, {}) && YieldingOk(s, {})
    requires t in s.tasks && s.tasks[t].runState.Queued?
    requires t in s.runQ || t in s.lowQ
    requires var s' := RemoveFromRunqueue(s, t, Blocked);
             forall x :: x in s'.runQ || x in s'.lowQ <==> x != t && (x in s.runQ || x in s.lowQ)
    ensures var s' := RemoveFromRunqueue(s, t, Blocked);
            SlotsOk(s', {}) && HomesOk(s', {}) && YieldingOk(s', {})
  {
    var s' := RemoveFromRunqueue(s, t, Blocked);
    YieldingFrame(s, {}, s', {});
    forall x | x in s'.tasks
      ensures AtHome(s', x)
    {
      assert AtHome(s, x);
    }
    forall c | 0 <= c < |s'.slots|
      ensures SlotOk(s', {}, c)
    {
      assert SlotOk(s, {}, c);
    }
  }

  lemma EraseTakesOut(s: State, t: TaskId)
    requires Placed(s, {}) && Flagged(s, {t})
    requires t in s.tasks && s.tasks[t].runState.Queued?
    ensures t in s.runQ || t in s.lowQ
    ensures var s' := RemoveFromRunqueue(s, t, Blocked);
            Placed(s', {}) && Flagged(s', {t})
  {
    assert AtHome(s, t);
    var s' := RemoveFromRunqueue(s, t, Blocked);
    TaskCount(s, s');
    EraseKeepsQueues(s, t);
    EraseKeepsSlots(s, t);
    assert TaskFacts(s.cfg, s.clock, s.tasks[t]);
    FlaggedFrame(s, {t}, s', {t}, t);
  }

  /** Clearing the slot of a task, whichever of the two pointers holds it, leaves the task nowhere. */
  lemma ClearSlotTakesOut(s: State, out: set<TaskId>, c: CpuId, t: TaskId)
    requires Placed(s, out) && Flagged(s, out + {t})
    requires c < |s.slots|
    requires s.slots[c].current == Some(t) || s.slots[c].next == Some(t)
    ensures var s' := PutSlot(s, c, s.slots[c].(current := None, next := None));
            && t in s.tasks && t !in out && s.tasks[t].cpu == Some(c)
            && Placed(s', out + {t}) && Flagged(s', out + {t})
  {
    var s' := PutSlot(s, c, s.slots[c].(current := None, next := None));
    assert SlotOk(s, out, c);
    QueueFrame(s, out, s', out + {t}, s.runQ);
    QueueFrame(s, out, s', out + {t}, s.lowQ);
    YieldingFrame(s, out, s', out + {t});
    forall x | x in s'.tasks && x !in out + {t}
      ensures AtHome(s', x)
    {
      assert AtHome(s, x);
    }
    forall d | 0 <= d < |s'.slots|
      ensures SlotOk(s', out + {t}, d)
    {
      assert SlotOk(s, out, d);
    }
    assert TaskFacts(s.cfg, s.clock, s.tasks[t]);
    FlaggedFrame(s, out + {t}, s', out + {t}, t);
  }

  // ---------------------------------------------------------------- putting tasks back

  /** A task that is nowhere may change any field without moving anything else. */
  lemma OutTaskIsFree(s: State, out: set<TaskId>, t: TaskId, task: Task)
    requires Placed(s, out) && Flagged(s, out)
    requires t in s.tasks && t in out
    requires TaskFacts(s.cfg, s.clock, task)
    ensures Placed(PutTask(s, t, task), out) && Flagged(PutTask(s, t, task), out)
  {
    var s' := PutTask(s, t, task);
    TaskCount(s, s');
    assert Unmoved(s, out, s', out);
    QueueFrame(s, out, s', out, s.runQ);
    QueueFrame(s, out, s', out, s.lowQ);
    YieldingFrame(s, out, s', out);
    SlotsFrame(s, out, s', out);
    HomesFrame(s, out, s', out);
    FlaggedFrame(s, out, s', out, t);
  }

  lemma BlockedMayStayOut(s: State, out: set<TaskId>, t: TaskId)
    requires Placed(s, out) && Flagged(s, out)
    requires t in s.tasks && s.tasks[t].runState.Blocked?
    ensures Placed(s, out - {t}) && Flagged(s, out - {t})
  {
    assert Unmoved(s, out, s, out - {t});
    QueueFrame(s, out, s, out - {t}, s.runQ);
    QueueFrame(s, out, s, out - {t}, s.lowQ);
    YieldingFrame(s, out, s, out - {t});
    SlotsFrame(s, out, s, out - {t});
  }

  /** A blocked task is nowhere. */
  lemma BlockedIsOut(s: State, out: set<TaskId>, t: TaskId)
    requires Placed(s, out) && Flagged(s, out)
    requires t in s.tasks && s.tasks[t].runState.Blocked?
    ensures Placed(s, out + {t}) && Flagged(s, out + {t})
  {
    assert forall i :: 0 <= i < |s.runQ| ==> s.runQ[i] != t;
    forall c | 0 <= c < |s.slots|
      ensures SlotOk(s, out + {t}, c)
    {
      assert SlotOk(s, out, c);
    }
  }

  lemma PushFrontKeepsQueue(s: State, out: set<TaskId>, queue: seq<TaskId>, s': State, t: TaskId)
    requires QueueOk(s, out, queue) && Flagged(s, out)
    requires t in out && t in s'.tasks && s'.tasks[t].runState.Queued? && s.clock < -s'.tasks[t].stamp
    requires forall x :: x in s.tasks && x != t ==> x in s'.tasks && s'.tasks[x] == s.tasks[x]
    ensures QueueOk(s', out - {t}, [t] + queue)
  {
    var pushed := [t] + queue;
    assert forall i :: 0 < i < |pushed| ==> pushed[i] == queue[i - 1];
    forall i, j | 0 <= i < j < |pushed|
      ensures Before(s'.tasks, pushed[i], pushed[j])
    {
      assert TaskFacts(s.cfg, s.clock, s.tasks[queue[j - 1]]);
      if 0 < i {
        assert Before(s.tasks, queue[i - 1], queue[j - 1]);
      }
    }
  }

  lemma PushBackKeepsQueue(s: State, out: set<TaskId>, queue: seq<TaskId>, s': State, t: TaskId)
    requires QueueOk(s, out, queue) && Flagged(s, out)
    requires t in out && t in s'.tasks && s'.tasks[t].runState.Queued? && s.clock < s'.tasks[t].stamp
    requires forall x :: x in s.tasks && x != t ==> x in s'.tasks && s'.tasks[x] == s.tasks[x]
    ensures QueueOk(s', out - {t}, queue + [t])
  {
    var pushed := queue + [t];
    assert forall i :: 0 <= i < |queue| ==> pushed[i] == queue[i];
    forall i, j | 0 <= i < j < |pushed|
      ensures Before(s'.tasks, pushed[i], pushed[j])
    {
      assert TaskFacts(s.cfg, s.clock, s.tasks[queue[i]]);
      if j < |queue| {
        assert Before(s.tasks, queue[i], queue[j]);
      }
    }
  }

  lemma EnqueueKeepsQueues(s: State, out: set<TaskId>, t: TaskId)
    requires QueuesOk(s, out) && Flagged(s, out)
    requires t in s.tasks && t in out
    ensures var s' := Enqueue(s, t);
            && QueuesOk(s', out - {t})
            && forall x :: x in s'.runQ || x in s'.lowQ <==> x == t || x in s.runQ || x in s.lowQ
  {
    var s' := Enqueue(s, t);
    var task := s.tasks[t];
    var queue, other := if task.highPriority then s.runQ else s.lowQ, if task.highPriority then s.lowQ else s.runQ;
    if task.prioBoost || task.preempted {
      PushFrontKeepsQueue(s, out, queue, s', t);
    } else {
      PushBackKeepsQueue(s, out, queue, s', t);
    }
    QueueFrame(s, out, s', out - {t}, other);
    assert forall x :: x in Push(queue, t, task.prioBoost || task.preempted) <==> x == t || x in queue;
  }

  lemma EnqueuePutsBack(s: State, out: set<TaskId>, t: TaskId)
    requires Placed(s, out) && Flagged(s, out)
    requires t in s.tasks && t in out
    ensures Placed(Enqueue(s, t), out - {t}) && Flagged(Enqueue(s, t), out - {t})
  {
    var s' := Enqueue(s, t);
    TaskCount(s, s');
    assert Unmoved(s, out, s', out - {t});
    EnqueueKeepsQueues(s, out, t);
    YieldingFrame(s, out, s', out - {t});
    SlotsFrame(s, out, s', out - {t});
    HomesFrame(s, out, s', out - {t});
    assert TaskFacts(s.cfg, s.clock, s.tasks[t]);
    FlaggedFrame(s, out, s', out - {t}, t);
  }

  lemma YieldPutsBack(s: State, out: set<TaskId>, t: TaskId)
    requires Placed(s, out) && Flagged(s, out)
    requires t in s.tasks && t in out
    requires s.tasks[t].runState.OnCpu? || s.tasks[t].runState.Queued? || s.tasks[t].runState.Blocked?
    ensures Placed(Yield(s, t), out - {t}) && Flagged(Yield(s, t), out - {t})
  {
    var s' := Yield(s, t);
    TaskCount(s, s');
    assert Unmoved(s, out, s', out - {t});
    QueueFrame(s, out, s', out - {t}, s.runQ);
    QueueFrame(s, out, s', out - {t}, s.lowQ);
    SlotsFrame(s, out, s', out - {t});
    HomesFrame(s, out, s', out - {t});
    assert TaskFacts(s.cfg, s.clock, s.tasks[t]);
    FlaggedFrame(s, out, s', out - {t}, t);
    assert forall i :: 0 <= i < |s.yielding| ==> s'.yielding[i] == s.yielding[i];
  }

  /** Filling one pointer of an idle slot with a task that is nowhere. */
  lemma FillSlotPutsBack(s: State, out: set<TaskId>, c: CpuId, t: TaskId, task: Task, slot: CpuState)
    requires Placed(s, out) && Flagged(s, out)
    requires t in s.tasks && t in out
    requires c in s.cfg.cpus && c != s.globalCpu && c < |s.slots|
    requires s.slots[c].current.None? && s.slots[c].next.None?
    requires task.cpu == Some(c) && TaskFacts(s.cfg, s.clock, task) && TaskFlags(s.cfg, task)
    requires || (task.runState.OnCpu? && slot.current == Some(t) && slot.next.None?)
             || (task.runState.Pending? && slot.next == Some(t) && slot.current.None?)
    ensures var s' := PutTask(PutSlot(s, c, slot), t, task);
            Placed(s', out - {t}) && Flagged(s', out - {t})
  {
    var s' := PutTask(PutSlot(s, c, slot), t, task);
    TaskCount(s, s');
    assert Unmoved(s, out, s', out - {t});
    QueueFrame(s, out, s', out - {t}, s.runQ);
    QueueFrame(s, out, s', out - {t}, s.lowQ);
    YieldingFrame(s, out, s', out - {t});
    HomesFrame(s, out, s', out - {t});
    FlaggedFrame(s, out, s', out - {t}, t);
    forall d | 0 <= d < |s'.slots|
      ensures SlotOk(s', out - {t}, d)
    {
      assert SlotOk(s, out, d);
    }
  }
}
