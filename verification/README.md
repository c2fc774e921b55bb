# Models of the ghOSt data plane

Dafny models of three parts of the repository, each with its main properties proved:

* **The global scheduler** (`ghost_agent/net_scheduler.cc`). `SchedulerState` gives the effect of every operation as a
  function, `SchedulerInvariant` to `SchedulerRuns` prove what every message, scheduling round and migration keeps and
  what follows for whole runs, `SchedulerEffects` says what each operation does as a before-and-after statement,
  `SchedulerPlacement` which CPU a round gives to which task, `SchedulerPriorities` what becomes of priorities, and
  `NetScheduler` is the object whose methods are proved to have exactly those effects.
  The kernel is a parameter: availability, commits, transaction outcomes, stale barriers, task names, clock and random
  draws are arbitrary.
* **The packet pipeline** (`engine/switch.c`, `engine/init.c`). `PacketSwitch` is a state machine whose steps end at the
  ring and port operations of the threads; a run is any interleaving. `PacketJourney` and `PacketTally` follow single
  packets through it. `PacketBuffers` is the same code in place, on
  32-slot buffers, and `RoutingConfig` the table that start-up installs. The number of ports, the ring capacity, the
  network function and the traffic are arbitrary.
* **The JSON library** (`engine/thirdparty/cJSON.c`). Pure definitions of printing, parsing, comparison and string
  coding, the theorems about them, and the parser that builds linked items, the in-place printer, the child lists, the
  deep copy and the comparison of linked items proved against them. `JsonGrammar` says which string literals are
  accepted and what they mean, `JsonSpelling` which texts are, and `JsonLayout` where a printed text has its blanks.
  The C library's number formatting is a parameter of which only the print/scan inverse is assumed.

Some predicates are stated under a seal (`Seals`): a quantifier whose trigger keeps the definition out of a proof until
the proof asks for it.

An `assert` in a method of `NetScheduler` stands for a CHECK of the scheduler and is proved never to fire. A `requires`
of a handler is a guarantee of the kernel about its messages (`SchedulerRuns.Legal`): it speaks about the message, the
run state of its task and the switchto flag of its CPU, not about queues, the yield list or the tasks in CPU slots.

## Where the code and its documentation differ

* TASK_DEPARTED frees a task in any state. `NextIsSafeIff` says exactly when that is safe: if and only if the task is
  blocked.
* A new task is enqueued before its priority is known, by an uninitialised flag. `EveryRunSeparatesIff` says exactly
  when the queues of the two priorities stay apart: as long as no runnable new task has a flag that differs from its
  priority. `QueuesMayMix` is a run in which one has.
* CPUs that already have a `current` task are skipped by the scan, so preemption candidates are only CPUs whose
  transaction was reaped in this very round. That is narrower than README.md:38 of the repository says:
  `RunningIsNeverPreempted` and `HighPriorityMayWait`.
* The default of the routing table is meant for unknown destinations but fills five entries only;
  `UnconfiguredIsDroppedIff` gives the exact effect.
* The header of cJSON asks for five spare bytes in a preallocated buffer. Two are necessary and sufficient.
* The parser accepts string literals that section 7 of RFC 8259 forbids, and rejects some that it allows. An accepted
  literal is legal if and only if it has no raw control byte and four hexadecimal digits follow every `\u` at
  which the first pass starts an escape (`AcceptedIsLegalIff`): `parse_hex4` gives 0 for bad digits, and when a
  backslash is among them the second pass can run over the closing quote (`ClosingQuoteIsSwallowed`). A legal literal
  is accepted if and only if its surrogates are paired (`LegalIsAcceptedIff`). A decoded zero byte ends the value
  (`ValueIsWholeIff`).
* Every byte up to a space is a blank to the parser, and a number is whatever `strtod` makes of a run of number bytes.
  `TextIsReadIff` gives the accepted language.
* Under `cJSON_Compare` an item is equal to itself, but a copy of it need not be: not with a repeated key whose values
  differ, and not with NaNs. `CopyComparesEqualIff` gives the exact condition.

## Model

| member | source | states |
|---|---|---|
| `CpuLists.Permitted` | ghost_agent/net_scheduler.cc:32-37 | a CPU is a candidate if and only if it is available and, when affinity is enforced, allowed |
| `CpuLists.BestCpu` | ghost_agent/net_scheduler.cc:30-90 | no choice exactly for an empty list; otherwise the CPU of the best locality class, the lowest numbered of that class |
| `CpuLists.BestUnique` | ghost_agent/net_scheduler.cc:30-90 | there is only one such CPU |
| `CpuLists.BestOfClass` | ghost_agent/net_scheduler.cc:38-89 | the lowest CPU of a locality class is that CPU when all other CPUs are farther away |
| `CpuLists.BestCpuIs` | ghost_agent/net_scheduler.cc:38-90 | the choice spelled out: the last CPU, else the lowest sibling, else the lowest with the same L3, else the lowest on the same NUMA node, else the lowest |
| `CpuLists.FirstOnNode` | ghost_agent/net_scheduler.cc:78-84 | the loop finds the first CPU on the NUMA node, or none |
| `CpuLists.PickNextCpu` | ghost_agent/net_scheduler.cc:30-90 | the search class by class (same CPU, sibling, L3, NUMA node, any) finds that CPU |
| `SchedulerState.IndexOf` | ghost_agent/net_scheduler.cc:566-580 | the first occurrence, as std::find gives it |
| `SchedulerInvariant.EnqueuePutsBack` | ghost_agent/net_scheduler.cc:537-549 | a task that is nowhere and is enqueued is in exactly one run queue, and the order of the queue survives |
| `SchedulerInvariant.DequeueTakesOut` | ghost_agent/net_scheduler.cc:551-564 | a dequeued task is in no other place; all other tasks keep theirs |
| `SchedulerInvariant.EraseTakesOut` | ghost_agent/net_scheduler.cc:566-581 | removing a queued task from its run queue leaves it nowhere and all others in place |
| `SchedulerInvariant.YieldPutsBack` | ghost_agent/net_scheduler.cc:518-525 | a task that is nowhere and yields is once in the yield list |
| `SchedulerSteps.SyncIsDefined` | ghost_agent/net_scheduler.cc:583-590 | the CHECKs of SyncCpuState never fire: a `next` task is pending, the CPU has no `current` and is not the global one |
| `SchedulerSteps.SyncKeepsInv` | ghost_agent/net_scheduler.cc:583-616 | reaping a transaction, whatever its outcome, keeps the whole bookkeeping and touches this CPU's slot only |
| `SchedulerSteps.AssignKeepsInv` | ghost_agent/net_scheduler.cc:749-774 | opening a transaction on an idle permitted CPU keeps the bookkeeping and the transaction balance |
| `SchedulerSteps.ReplaceIsDefined` | ghost_agent/net_scheduler.cc:618-624 | the task to be replaced runs on that CPU, is not the new one, and no transaction is pending there |
| `SchedulerSteps.ReplaceCommittedKeepsInv` | ghost_agent/net_scheduler.cc:473-516 | a committed preemption keeps the bookkeeping, the affinity of the new task included |
| `SchedulerSteps.ReplaceFailedKeepsInv` | ghost_agent/net_scheduler.cc:618-642 | so does one that fails to commit: the victim is queued, the new task set aside, the CPU empty |
| `SchedulerSteps.MessagesAreDefined` | ghost_agent/net_scheduler.cc:212-218 | cpu_state_of and the CHECKs of the handlers about the agent's own state never fail |
| `SchedulerSteps.TaskNewKeepsInv` | ghost_agent/net_scheduler.cc:257-288 | a new task is counted and placed once, whatever the uninitialised priority flag holds when it is enqueued |
| `SchedulerSteps.TaskRunnableKeepsInv` | ghost_agent/net_scheduler.cc:290-305 | a wakeup keeps the bookkeeping and queues the task |
| `SchedulerSteps.FreeKeepsInv` | ghost_agent/net_scheduler.cc:319-323 | freeing a blocked task keeps the bookkeeping and the task count |
| `SchedulerSteps.DepartedKeepsInvIffBlocked` | ghost_agent/net_scheduler.cc:307-317 | TASK_DEPARTED keeps the bookkeeping if and only if the departing task is blocked |
| `SchedulerSteps.TaskBlockedKeepsInv` | ghost_agent/net_scheduler.cc:325-363 | in each of its three cases the handler keeps the bookkeeping and leaves the task blocked |
| `SchedulerSteps.TaskPreemptedKeepsInv` | ghost_agent/net_scheduler.cc:365-401 | in each case the handler keeps the bookkeeping and leaves the task queued |
| `SchedulerSteps.TaskYieldKeepsInv` | ghost_agent/net_scheduler.cc:403-440 | in each case the handler keeps the bookkeeping; the task is set aside, or stays queued |
| `SchedulerSteps.TaskSwitchtoKeepsInv` | ghost_agent/net_scheduler.cc:442-471 | the handler keeps the bookkeeping, blocks the task and marks the CPU |
| `SchedulerRound.ScanCpuKeeps` | ghost_agent/net_scheduler.cc:659-697 | scanning a CPU keeps the bookkeeping and the slots of all other CPUs |
| `SchedulerRound.ScanDecides` | ghost_agent/net_scheduler.cc:677-696 | the scan calls a CPU idle or preemptable exactly when, after the reaping, it is |
| `SchedulerRound.ScanReady` | ghost_agent/net_scheduler.cc:657-697 | after the whole scan every idle CPU is empty and off switchto, and every preemptable CPU has a running task |
| `SchedulerRound.TurnIsDefined` | ghost_agent/net_scheduler.cc:699-774 | the CHECKs of the placement loop never fire |
| `SchedulerRound.PlaceOneKeeps` | ghost_agent/net_scheduler.cc:699-775 | a turn keeps the invariant and strictly decreases idle CPUs + preemptable CPUs + queued tasks, although a victim goes back into a queue |
| `SchedulerRound.PlaceAll` | ghost_agent/net_scheduler.cc:699-775 | the loop terminates, and stops only without CPUs or without queued tasks |
| `SchedulerRound.Requeue` | ghost_agent/net_scheduler.cc:783-789 | the yield list ends empty and every task of it is queued |
| `SchedulerRound.GlobalSchedule` | ghost_agent/net_scheduler.cc:646-800 | a whole round keeps the invariant and leaves the yield list empty |
| `SchedulerRound.Target` | ghost_agent/net_scheduler.cc:802-836 | the migration target is another CPU: the home CPU or a CPU of the enclave |
| `SchedulerRound.TargetIsFirst` | ghost_agent/net_scheduler.cc:806-836 | the search stops at the first CPU at whose turn the home CPU is free or that is eligible itself, and fails only if there is none |
| `SchedulerRound.VacateKeepsInv` | ghost_agent/net_scheduler.cc:848-863 | evicting the task of the target CPU keeps the bookkeeping |
| `SchedulerRound.MigrateIsSafe` | ghost_agent/net_scheduler.cc:838-866 | sync, eviction and move together leave the new global CPU without `current` and `next` |
| `SchedulerRound.PickNextGlobalCpu` | ghost_agent/net_scheduler.cc:802-867 | a migration keeps the invariant |
| `SchedulerTheorems.PlaceAllHistory` | ghost_agent/net_scheduler.cc:699-775 | what the loop picked is pending, running or set aside with a reason, and nothing is picked twice |
| `SchedulerTheorems.WorkConserved` | ghost_agent/net_scheduler.cc:657-775 | work conservation of a round: queues or CPU sets end empty, no task is picked twice, and a ready task that was set aside and lost no failed commit has no permitted CPU left |
| `SchedulerRuns.StepKeepsInv` | ghost_agent/net_scheduler.cc:212-867 | every message, round and migration keeps the invariant, if and only if it is no departure of a task that is not blocked |
| `SchedulerRuns.EveryRunIsSafe` | ghost_agent/net_scheduler.cc:212-867 | in every run: each task in exactly one place which its run state names, the task count, a free global CPU, affinity, queue order, and txn_total = successes + failures + pending + direct replacements |
| `SchedulerRuns.UnsoundIsUnsafe` | ghost_agent/net_scheduler.cc:307-317 | after the departure of a task that is not blocked the state is not safe |
| `SchedulerRuns.NextIsSafeIff` | ghost_agent/net_scheduler.cc:212-867 | after any such run, the next message, round or migration leaves a safe state if and only if it is no departure of a task that is not blocked |
| `SchedulerRuns.DepartedMayDangle` | ghost_agent/net_scheduler.cc:307-317 | a run from the initial state in which a departed task stays at the head of its queue |
| `SchedulerRuns.EnqueueThenHead` | ghost_agent/net_scheduler.cc:537-564 | exactly when an enqueued task is the next to be dequeued |
| `SchedulerRuns.HeadIsOldest` | ghost_agent/net_scheduler.cc:537-564 | a back-pushed task leaves only after all front-pushed and all earlier back-pushed tasks of its queue |
| `SchedulerPriorities.EnqueueSeparates` | ghost_agent/net_scheduler.cc:537-549 | enqueueing keeps the two priorities in their own queues |
| `SchedulerPriorities.NewSeparatesIff` | ghost_agent/net_scheduler.cc:257-288 | a new task keeps them apart if and only if it is not runnable or its uninitialised flag equals its priority |
| `SchedulerPriorities.RoundSeparates` | ghost_agent/net_scheduler.cc:646-800 | a whole round keeps them apart: scan, placement with its preemptions, requeueing |
| `SchedulerPriorities.MigrationSeparates` | ghost_agent/net_scheduler.cc:802-867 | so does a migration |
| `SchedulerPriorities.StepSeparatesIff` | ghost_agent/net_scheduler.cc:212-867 | every message, round and migration keeps the queues of the two priorities apart, if and only if it is not such a new task |
| `SchedulerPriorities.RunSeparates` | ghost_agent/net_scheduler.cc:212-867 | in every run without such a new task each queue holds one priority only |
| `SchedulerPriorities.EveryRunSeparatesIff` | ghost_agent/net_scheduler.cc:212-867 | after any such run from the initial state, the next event keeps it so if and only if it is no such new task |
| `SchedulerPriorities.QueuesMayMix` | ghost_agent/net_scheduler.cc:257-288 | a run that puts a low priority task into the high priority queue |
| `SchedulerPriorities.RunningIsNeverPreempted` | ghost_agent/net_scheduler.cc:677 | a task that runs when a round begins runs on the same CPU when it ends: its CPU is neither idle nor preemptable |
| `SchedulerPriorities.BusyRound` | ghost_agent/net_scheduler.cc:646-800 | when a task runs on every CPU but the agent's own, a round only requeues the yielding tasks |
| `SchedulerPriorities.HighPriorityMayWait` | ghost_agent/net_scheduler.cc:677 | a high priority task that waits for the CPU of a low priority task, whatever the kernel answers |
| `SchedulerEffects.WakeupEffect` | ghost_agent/net_scheduler.cc:290-305 | the woken task is put in front of its queue if the wakeup is not deferrable or the task was preempted, behind it otherwise; nothing else changes |
| `SchedulerEffects.WokenIsNext` | ghost_agent/net_scheduler.cc:290-305 | exactly when the woken task is the next to be dequeued |
| `SchedulerEffects.NewEffect` | ghost_agent/net_scheduler.cc:257-288 | the record of a new task and its place at the end of a queue |
| `SchedulerEffects.FreeEffect` | ghost_agent/net_scheduler.cc:307-323 | what a departure or death removes, and what it leaves |
| `SchedulerEffects.SyncEffect` | ghost_agent/net_scheduler.cc:583-616 | a completed transaction makes its task the running one; a failed one puts it back, in front if it is boosted; counters |
| `SchedulerEffects.AssignEffect` | ghost_agent/net_scheduler.cc:749-774 | a placed task is pending on its CPU, its preemption kept as a boost |
| `SchedulerEffects.FailureKeepsPrecedence` | ghost_agent/net_scheduler.cc:583-774 | over placement and failed transaction together: the task is queued in front if and only if it was boosted or preempted before |
| `SchedulerEffects.ReplaceEffect` | ghost_agent/net_scheduler.cc:618-642 | the victim goes in front of its queue; the new task runs, or waits and the CPU stays empty; what is accounted |
| `SchedulerEffects.BlockedEffect` | ghost_agent/net_scheduler.cc:325-363 | in each case: queues, CPU, runtime, flags and submission time of the task, and nothing else |
| `SchedulerEffects.PreemptedEffect` | ghost_agent/net_scheduler.cc:365-401 | likewise; the preempted task goes in front of its queue |
| `SchedulerEffects.YieldEffect` | ghost_agent/net_scheduler.cc:403-440 | likewise; the yielding task goes to the end of the yield list |
| `SchedulerEffects.SwitchtoEffect` | ghost_agent/net_scheduler.cc:442-471 | likewise; the CPU is marked |
| `SchedulerEffects.RequeueEffect` | ghost_agent/net_scheduler.cc:783-789 | the order of the queues after the yield list is moved back |
| `SchedulerEffects.VacateEffect` | ghost_agent/net_scheduler.cc:848-863 | the evicted task goes in front of its queue, boosted |
| `SchedulerEffects.MigrationEffect` | ghost_agent/net_scheduler.cc:802-867 | a whole migration: reaping, eviction, the new CPU of the agent |
| `SchedulerPlacement.IdleCpuComesFirst` | ghost_agent/net_scheduler.cc:728-774 | a ready task that may use an idle CPU becomes the next task of the closest one; no running task and no preemptable CPU is touched |
| `SchedulerPlacement.PreemptionComesSecond` | ghost_agent/net_scheduler.cc:730-742 | only a task that may use no idle CPU displaces a running one, on the closest preemptable CPU |
| `SchedulerPlacement.OthersWait` | ghost_agent/net_scheduler.cc:699-748 | a stale task, or one that may use no CPU that is left, is set aside and nothing else happens |
| `SchedulerPlacement.TurnsMakeTheRound` | ghost_agent/net_scheduler.cc:699-775 | the round is the sequence of these turns |
| `SchedulerPlacement.LosersInPlacement` | ghost_agent/net_scheduler.cc:699-775 | a preemptable CPU keeps its task through all turns, or some turn took it over for a task without a permitted idle CPU |
| `SchedulerPlacement.LosesOnlyWithoutIdleCpu` | ghost_agent/net_scheduler.cc:646-800 | a task reaped in a round loses its CPU in it only to a task that may use no idle CPU at its turn, and never if it is spared |
| `SchedulerPlacement.ScanReaps` | ghost_agent/net_scheduler.cc:657-681 | the scan reaps every committed transaction, on lost CPUs too, and changes no other slot |
| `SchedulerPlacement.IdleMeans` | ghost_agent/net_scheduler.cc:683-687 | exactly which CPUs count as idle |
| `SchedulerPlacement.PreemptableMeans` | ghost_agent/net_scheduler.cc:688-696 | exactly which CPUs count as preemptable, with the draw and the 300 microseconds |
| `SchedulerPlacement.RoundLeaves` | ghost_agent/net_scheduler.cc:646-800 | any other CPU is left as the scan found it |
| `SchedulerPlacement.SparedKeepsItsCpu` | ghost_agent/net_scheduler.cc:688-696 | a memcached task that is not drawn or has run 300 microseconds or less keeps its CPU through the round |
| `SchedulerPlacement.LostCpuIsReaped` | ghost_agent/net_scheduler.cc:663-674 | on a lost CPU a committed transaction is reaped and nothing is placed |
| `NetSchedulerObject.NetScheduler.constructor` | ghost_agent/net_scheduler.cc:108-121 | a fresh scheduler is an initial state; the home CPU is one of the enclave |
| `NetSchedulerObject.NetScheduler.Enqueue` | ghost_agent/net_scheduler.cc:537-549 | in place, the effect that the queue lemmas are about |
| `NetSchedulerObject.NetScheduler.Dequeue` | ghost_agent/net_scheduler.cc:551-564 | returns the head and removes it |
| `NetSchedulerObject.NetScheduler.Find` | ghost_agent/net_scheduler.cc:571 | the index of the first occurrence, or the length |
| `NetSchedulerObject.NetScheduler.RemoveFromRunqueue` | ghost_agent/net_scheduler.cc:566-581 | in place, the effect of the removal lemma |
| `NetSchedulerObject.NetScheduler.Yield` | ghost_agent/net_scheduler.cc:518-525 | in place, the effect of the yield lemma |
| `NetSchedulerObject.NetScheduler.Unyield` | ghost_agent/net_scheduler.cc:527-535 | takes a task out of the yield list and queues it |
| `NetSchedulerObject.NetScheduler.SyncCpuState` | ghost_agent/net_scheduler.cc:583-616 | in place, the effect that SyncKeepsInv is about, and its result |
| `NetSchedulerObject.NetScheduler.PreemptTask` | ghost_agent/net_scheduler.cc:473-516 | the effect of a commit, or none when it fails |
| `NetSchedulerObject.NetScheduler.ReplaceExistingTask` | ghost_agent/net_scheduler.cc:618-642 | in place, the effect that the two replacement lemmas are about |
| `NetSchedulerObject.NetScheduler.EnclaveCpus` | ghost_agent/net_scheduler.cc:279-282 | the loop computes the allowed CPUs of the enclave |
| `NetSchedulerObject.NetScheduler.TaskNew` | ghost_agent/net_scheduler.cc:257-288 | in place, the effect that TaskNewKeepsInv is about |
| `NetSchedulerObject.NetScheduler.TaskRunnable` | ghost_agent/net_scheduler.cc:290-305 | likewise for a wakeup |
| `NetSchedulerObject.NetScheduler.TaskDeparted` | ghost_agent/net_scheduler.cc:307-317 | likewise for a departure |
| `NetSchedulerObject.NetScheduler.TaskDead` | ghost_agent/net_scheduler.cc:319-323 | likewise for a death |
| `NetSchedulerObject.NetScheduler.TaskBlocked` | ghost_agent/net_scheduler.cc:325-363 | likewise; the CHECKs inside are proved |
| `NetSchedulerObject.NetScheduler.TaskPreempted` | ghost_agent/net_scheduler.cc:365-401 | likewise |
| `NetSchedulerObject.NetScheduler.TaskYield` | ghost_agent/net_scheduler.cc:403-440 | likewise |
| `NetSchedulerObject.NetScheduler.TaskSwitchto` | ghost_agent/net_scheduler.cc:442-471 | likewise |
| `NetSchedulerObject.NetScheduler.ScanCpu` | ghost_agent/net_scheduler.cc:659-696 | one CPU of the scan, with its classification |
| `NetSchedulerObject.NetScheduler.ScanCpus` | ghost_agent/net_scheduler.cc:657-697 | the loop computes the scanned state and exactly the idle and the preemptable CPUs |
| `NetSchedulerObject.NetScheduler.AssignTask` | ghost_agent/net_scheduler.cc:749-774 | in place, the effect that AssignKeepsInv is about |
| `NetSchedulerObject.NetScheduler.PlaceTask` | ghost_agent/net_scheduler.cc:699-775 | one turn of the placement loop |
| `NetSchedulerObject.NetScheduler.PlaceTasks` | ghost_agent/net_scheduler.cc:699-775 | the placement loop: with its termination, exactly the state and the sets of PlaceAll |
| `NetSchedulerObject.NetScheduler.RequeueYielding` | ghost_agent/net_scheduler.cc:783-789 | the loop over the yield list |
| `NetSchedulerObject.NetScheduler.GlobalSchedule` | ghost_agent/net_scheduler.cc:646-800 | the whole round, in place |
| `NetSchedulerObject.NetScheduler.FindTarget` | ghost_agent/net_scheduler.cc:806-836 | the search loop of the migration |
| `NetSchedulerObject.NetScheduler.PickNextGlobalCpu` | ghost_agent/net_scheduler.cc:802-867 | the whole migration, in place |
| `NetSchedulerObject.NetScheduler.Evict` | ghost_agent/net_scheduler.cc:848-863 | the eviction, in place |
| `PacketInvariant.RouteKeeps` | engine/switch.c:405-418 | routing one packet, to a port, to nowhere or to an unknown port, keeps order, conservation and counters |
| `PacketInvariant.FastKeeps` | engine/switch.c:377-440 | every step of the fast path keeps the invariant |
| `PacketInvariant.CoprocKeeps` | engine/switch.c:444-474 | every step of a coprocessor keeps the invariant |
| `PacketInvariant.EnqueueRxKeeps` | engine/switch.c:307-327 | staging a packet keeps its lane in order and the buffer below 32 entries, flush included |
| `PacketInvariant.EnqueueTxKeeps` | engine/switch.c:330-351 | likewise on the way back |
| `PacketInvariant.ForwardKeeps` | engine/switch.c:284-304 | likewise towards the port |
| `PacketInvariant.LaneFlushPort` | engine/switch.c:139-183 | a flush, whatever the port takes, keeps lane order and counter balance |
| `PacketInvariant.LaneFlushRx` | engine/switch.c:186-238 | a bulk enqueue that succeeds or fails keeps lane order and counter balance |
| `PacketInvariant.LaneFlushTx` | engine/switch.c:241-280 | likewise on the way back |
| `PacketInvariant.FlushPortBag` | engine/switch.c:139-183 | each flushed packet is delivered or freed, none twice |
| `PacketInvariant.FlushRxBag` | engine/switch.c:186-238 | each flushed packet is in the ring or freed |
| `PacketInvariant.FlushTxBag` | engine/switch.c:241-280 | likewise on the way back |
| `PacketRuns.RunKeeps` | engine/switch.c:377-474 | the invariant holds over every interleaving |
| `PacketRuns.EveryRunDeliversInOrder` | engine/switch.c:377-474 | what a port gets is a subsequence of the accepted packets routed to it, in arrival order and without duplicates |
| `PacketRuns.EveryRunConserves` | engine/switch.c:139-474 | every received packet is in exactly one place at every moment, and nothing else is anywhere |
| `PacketRuns.EveryRunBalances` | engine/switch.c:139-474 | the counters balance with the occupancies, those of drops and rejections with the packets freed, staging stays below 32, rings within capacity |
| `PacketRuns.EveryRunIsDefined` | engine/switch.c:139-474 | after any run no index is out of range and no buffer overrun: an operation is defined if and only if the port or ring answers no more than was asked for |
| `PacketRuns.RunCountsFreed` | engine/switch.c:139-474 | over any run the drop counters, parse errors and rejections grow by the packets freed |
| `PacketFlushing.RunKeepsFlushed` | engine/switch.c:354-440 | what has been flushed where the fast path stands, over every interleaving |
| `PacketFlushing.EveryPassStartsFlushed` | engine/switch.c:354-474 | nothing is staged for a polled port when the fast path starts a pass, nor for the way back when a coprocessor polls |
| `PacketRuns.ClosedTableLeaksNothing` | engine/switch.c:317-319 | with a table that names only existing ports the silent return is never taken |
| `PacketRuns.OpenTableLeaks` | engine/switch.c:317-319 | with any other table some run loses a packet |
| `PacketJourney.StepMoves` | engine/switch.c:139-474 | every step takes every packet where the rules of the way say: staged, in a ring, with the coprocessor, back, delivered, freed or lost, by the table, the verdict, the room of the ring and what the port takes |
| `PacketJourney.PolledArrives` | engine/switch.c:393-397 | every polled frame is a packet that waits to be routed |
| `PacketJourney.EveryPacketHasOneSpot` | engine/switch.c:139-474 | in every run every packet is in exactly one spot |
| `PacketJourney.FreedForAReason` | engine/switch.c:139-474 | a step frees a packet only without egress port, by verdict, with a bulk that does not fit, or beyond what the port took |
| `PacketJourney.EveryFreedHasAReason` | engine/switch.c:139-474 | so for every packet freed in any run there is such a step |
| `PacketTally.EveryRunRoutesByTheTable` | engine/switch.c:405-418 | in every run: each port was handed as many packets as the table sends to it, parse errors are the packets without egress port, and exactly those for no existing port are lost |
| `PacketTally.ReceiveCounters` | engine/switch.c:395-410 | a poll counts on the polled port, a parse error on the port where the packet came in, and nothing else does |
| `PacketFlushing.FastCycles` | engine/switch.c:377-440 | the order of a pass: poll and route port by port, flush, poll and forward coprocessor by coprocessor, flush |
| `PacketBuffers.PacketBuf.Add` | engine/switch.c:299-300 | appends to the buffer in place |
| `PacketBuffers.PortQueues.FreeFrom` | engine/switch.c:171-175 | the loop frees the rest of a buffer, in order |
| `PacketBuffers.PortQueues.FlushPortQueue` | engine/switch.c:139-183 | in place, the effect that LaneFlushPort is about |
| `PacketBuffers.PortQueues.FlushNfRxQueue` | engine/switch.c:186-238 | in place, the effect that LaneFlushRx is about |
| `PacketBuffers.PortQueues.FlushNfTxQueue` | engine/switch.c:241-280 | in place, the effect that LaneFlushTx is about |
| `PacketBuffers.PortQueues.EnqueuePort` | engine/switch.c:284-304 | in place, the staging step with its flush; the count stays below 32 |
| `PacketBuffers.PortQueues.EnqueueNfRx` | engine/switch.c:307-327 | likewise |
| `PacketBuffers.PortQueues.EnqueueNfTx` | engine/switch.c:330-351 | likewise |
| `PacketBuffers.PortQueues.WorkOff` | engine/switch.c:464-470 | the loop over a burst |
| `PacketBuffers.PortQueues.Coprocessor` | engine/switch.c:444-474 | one call, in place: the effect of Pass |
| `PacketBuffers.PassIsARun` | engine/switch.c:444-474 | a whole call is one of the runs of the small steps, so every theorem about runs covers it |
| `RoutingConfig.ReadConfig` | engine/init.c:40-84 | the loops install exactly the table of Installed |
| `RoutingConfig.RoutesToOwner` | engine/switch.c:94-136 | a packet for the address of a port goes to that port |
| `RoutingConfig.InstalledRouting` | engine/switch.c:94-136 | the whole of get_next_hop with the installed table, by ether type and address |
| `RoutingConfig.UnconfiguredIsDroppedIff` | engine/init.c:50-53 | an address of no port is dropped if and only if its low half is below KNI_KTHREAD; otherwise it goes to port 0 |
| `RoutingConfig.UnconfiguredMayBeForwarded` | engine/init.c:50-53 | 10.0.0.9 goes to port 0 |
| `RoutingConfig.InstalledLeaksNothing` | engine/init.c:78-81 | with this table no run loses a packet |
| `JsonText.Skip` | engine/thirdparty/cJSON.c:970-988 | stays in the buffer and stops at a byte above a space or at the last one |
| `JsonStrings.Hex4IsHexNumber` | engine/thirdparty/cJSON.c:547-580 | the value of four digits, or 0 if one is bad |
| `JsonStrings.ParseHex4` | engine/thirdparty/cJSON.c:547-580 | the shifting loop computes it |
| `JsonStrings.Utf8RoundTrip` | engine/thirdparty/cJSON.c:648-696 | a decoder that rejects overlong forms gives every code point back |
| `JsonStrings.Utf8ByShifts` | engine/thirdparty/cJSON.c:679-696 | the encoding read from its last byte to its first |
| `JsonStrings.EncodingBits` | engine/thirdparty/cJSON.c:680-696 | the bit operations of the loop are that arithmetic, for all 32-bit values |
| `JsonStrings.SurrogateBits` | engine/thirdparty/cJSON.c:638-639 | the bit operations on a surrogate pair are section 2.2 of RFC 2781 |
| `JsonStrings.FirstPassReaches` | engine/thirdparty/cJSON.c:719-741 | no escape starts right before the closing quote |
| `JsonStrings.KeptHalf` | engine/thirdparty/cJSON.c:584-702 | of any 2n bytes the first pass counts at least n |
| `JsonStrings.DecodeFits` | engine/thirdparty/cJSON.c:752-806 | from any position on, well formed or not, the second pass writes at most what the first pass counted |
| `JsonStrings.AllocationSuffices` | engine/thirdparty/cJSON.c:719-749 | so the allocation holds every decoded literal |
| `JsonStrings.CountedLength` | engine/thirdparty/cJSON.c:861-885 | the counted length of an escaped string is the length that is written |
| `JsonStrings.EscapeIsRead` | engine/thirdparty/cJSON.c:752-806 | both passes read one escaped byte back |
| `JsonStrings.EscapedIsRead` | engine/thirdparty/cJSON.c:705-831 | both passes read an escaped string back, for every NUL-free byte string |
| `JsonGrammar.EndIsFirstVisible` | engine/thirdparty/cJSON.c:719-741 | the first pass stops at the first quote that no backslash hides, and fails only without one |
| `JsonGrammar.UnicodeLiteralIsRead` | engine/thirdparty/cJSON.c:584-702 | the literal or surrogate pair of every scalar value is read as that value and decoded to its encoding |
| `JsonGrammar.AcceptedIsLegalIff` | engine/thirdparty/cJSON.c:705-831 | an accepted literal is one of section 7 of RFC 8259 if and only if it has no control byte and four digits after each \u |
| `JsonGrammar.LegalIsAcceptedIff` | engine/thirdparty/cJSON.c:705-831 | a literal of section 7 of RFC 8259 is accepted if and only if its surrogates are paired, and its value is the concatenation of what its chars mean, up to a zero byte |
| `JsonGrammar.UnescapeIs` | engine/thirdparty/cJSON.c:768-790 | the two-byte escapes have the meaning of the table in section 7 of RFC 8259 |
| `JsonGrammar.HexValueIs` | engine/thirdparty/cJSON.c:547-580 | hexadecimal digits of either case have their values |
| `JsonGrammar.CharsAreRead` | engine/thirdparty/cJSON.c:752-806 | the second pass gives the chars of the grammar their meaning |
| `JsonGrammar.EscapeByteIs` | engine/thirdparty/cJSON.c:907-945 | which bytes are written as a two-byte escape, as a \u escape and as they are, by the same table |
| `JsonGrammar.PrintedLiteralMeans` | engine/thirdparty/cJSON.c:834-953 | a printed literal is in the grammar and means the string that was printed |
| `JsonGrammar.AcceptanceIsExact` | engine/thirdparty/cJSON.c:705-831 | so both conditions together separate exactly the legal literals with paired surrogates |
| `JsonGrammar.ControlByteIsAccepted` | engine/thirdparty/cJSON.c:752-758 | a raw newline is accepted |
| `JsonGrammar.BadDigitsAreAccepted` | engine/thirdparty/cJSON.c:547-580 | \uZZZZ is accepted and read as the empty string |
| `JsonGrammar.ClosingQuoteIsSwallowed` | engine/thirdparty/cJSON.c:719-806 | a literal whose closing quote the second pass decodes |
| `JsonGrammar.LoneSurrogateIsRejected` | engine/thirdparty/cJSON.c:604-632 | the legal \uD800 is rejected |
| `JsonGrammar.ValueEndsAtZero` | engine/thirdparty/cJSON.c:808-812 | the value is what was decoded before the first zero byte |
| `JsonGrammar.ValueIsWholeIff` | engine/thirdparty/cJSON.c:808-812 | the C string holds all that was decoded if and only if no zero byte was |
| `JsonParser.ParseString` | engine/thirdparty/cJSON.c:705-831 | advances and stays before the terminator, or fails inside the buffer |
| `JsonParser.SpanIs` | engine/thirdparty/cJSON.c:285-317 | the copied text is the longest run of number bytes that fits |
| `JsonParser.ParseNumber` | engine/thirdparty/cJSON.c:273-347 | advances, or fails in place |
| `JsonParser.ParseValue` | engine/thirdparty/cJSON.c:1219-1271 | terminates; a success strictly advances and stays before the terminator, a failure is never past the buffer |
| `JsonParser.ParseArray` | engine/thirdparty/cJSON.c:1348-1439 | terminates; a success strictly advances and stays before the terminator, a failure is never past the buffer |
| `JsonParser.ParseObject` | engine/thirdparty/cJSON.c:1504-1610 | terminates; a success strictly advances and stays before the terminator, a failure is never past the buffer |
| `JsonParser.ParseText` | engine/thirdparty/cJSON.c:1007-1084 | the error position is inside the text, and a parse to the end ends at the terminator |
| `JsonSpelling.SkipTo` | engine/thirdparty/cJSON.c:970-988 | the skip ends at the next byte above a space |
| `JsonSpelling.ValueIsRead` | engine/thirdparty/cJSON.c:1219-1610 | a text that stands for a tree, with any blanks between its tokens, is read as that tree up to its last byte, or rejected if it nests too deeply from there |
| `JsonSpelling.ReadIsSpelled` | engine/thirdparty/cJSON.c:1219-1610 | whatever is read as a tree stands for that tree |
| `JsonSpelling.ReadIffSpelled` | engine/thirdparty/cJSON.c:1219-1610 | the parser reads a tree if and only if the text stands for it and it is not nested too deeply |
| `JsonSpelling.ParsedFits` | engine/thirdparty/cJSON.c:1348-1439 | nothing deeper than the limit is accepted |
| `JsonSpelling.RunIsSpan` | engine/thirdparty/cJSON.c:285-317 | the copied text is the longest run of the bytes 0123456789+-.eE, up to 63 of them |
| `JsonSpelling.TrailingErrorAt` | engine/thirdparty/cJSON.c:1038-1046 | the error position when more than blanks follow a value |
| `JsonSpelling.SpellingIsUnique` | engine/thirdparty/cJSON.c:1219-1610 | a text stands for one tree only |
| `JsonSpelling.TextIsReadIff` | engine/thirdparty/cJSON.c:1007-1084 | a whole text is accepted if and only if, after a byte order mark and blanks, it stands for a tree within the limit and, if that is demanded, only blanks follow |
| `JsonRoundTrip.QuotedIsRead` | engine/thirdparty/cJSON.c:705-953 | the string coding round trip, at any position of any text |
| `JsonRoundTrip.NumberIsSpelled` | engine/thirdparty/cJSON.c:273-347 | a printed number stands for itself in front of any byte that is no number byte |
| `JsonRoundTrip.PrintSpells` | engine/thirdparty/cJSON.c:1274-1724 | the text printed for a tree, formatted or not, anywhere in a text, stands for the tree with null for non-finite numbers |
| `JsonRoundTrip.PrintHasNoZero` | engine/thirdparty/cJSON.c:1274-1345 | a printed text has no zero byte |
| `JsonRoundTrip.PrintThenParse` | engine/thirdparty/cJSON.c:1219-1724 | printing and parsing any tree, formatted or not, reads exactly the text and gives the tree with null for non-finite numbers; too deep a tree is rejected |
| `JsonRoundTrip.RoundTripIff` | engine/thirdparty/cJSON.c:1219-1724 | the round trip is exact if and only if the nesting is at most 1000 and all numbers are finite |
| `JsonRoundTrip.PrintIsInjective` | engine/thirdparty/cJSON.c:1274-1724 | different trees have different texts, formatted or not |
| `JsonRoundTrip.ParseThenPrint` | engine/thirdparty/cJSON.c:1007-1216 | whatever was parsed can be printed and parsed again |
| `JsonLayout.PrintSqueezes` | engine/thirdparty/cJSON.c:1274-1724 | deleting the bytes up to a space outside string literals from any printed text gives the compact text |
| `JsonLayout.UnformattedIsCompact` | engine/thirdparty/cJSON.c:1274-1724 | an unformatted text has no such byte, and it is the formatted text without them |
| `JsonLayout.PrintIndents` | engine/thirdparty/cJSON.c:1442-1501 | at any depth and in front of any text: the formatted text is the compact one indented byte by byte |
| `JsonLayout.FormattedIsIndented` | engine/thirdparty/cJSON.c:1613-1724 | a space after each comma of an array, a tab after each colon, each member and closing brace on a line with as many tabs as its depth, and no other blank |
| `JsonValues.NulledIffFinite` | engine/thirdparty/cJSON.c:496-500 | printing null for non-finite numbers changes a tree exactly when it has one |
| `JsonParseBuffer.ReadLiteral` | engine/thirdparty/cJSON.c:584-646 | the code point and length of a literal, or a failure, as Utf16 gives them |
| `JsonParseBuffer.Utf16ToUtf8` | engine/thirdparty/cJSON.c:584-702 | writes exactly the encoding of the literal, within the room there is |
| `JsonParseBuffer.EncodeBytes` | engine/thirdparty/cJSON.c:679-696 | the loop from the last byte to the first |
| `JsonParseBuffer.FindEnd` | engine/thirdparty/cJSON.c:719-743 | the first pass finds the end, and its count is the one that suffices |
| `JsonParseBuffer.UnescapeOne` | engine/thirdparty/cJSON.c:759-805 | one escape, written within the allocation |
| `JsonParseBuffer.SecondPass` | engine/thirdparty/cJSON.c:752-806 | the second pass never writes past the allocation and gives the decoded bytes or the place of the bad escape |
| `JsonParseBuffer.ParseBuffer.SkipWhitespace` | engine/thirdparty/cJSON.c:970-988 | over the terminator and back onto it, as Skip says |
| `JsonParseBuffer.ParseBuffer.ParseString` | engine/thirdparty/cJSON.c:705-831 | both passes in place: the offset is that of the function, and the item gets its text |
| `JsonParseBuffer.ParseBuffer.CopyNumber` | engine/thirdparty/cJSON.c:285-320 | the copy loop stays in its 64 bytes |
| `JsonParseBuffer.ParseBuffer.ParseNumber` | engine/thirdparty/cJSON.c:273-347 | the offset is that of the function, and the item gets its number |
| `JsonBuild.LinkNew` | engine/thirdparty/cJSON.c:1392-1404 | a new item is linked behind the last one; the trees before it stay as they are |
| `JsonBuild.Settles` | engine/thirdparty/cJSON.c:1392-1413 | once the new item is filled the list is one of trees again, one longer |
| `JsonBuild.Assemble` | engine/thirdparty/cJSON.c:1421-1427 | an item and the list of its children are a tree without repeated items |
| `JsonParseBuffer.ParseBuffer.ParseValue` | engine/thirdparty/cJSON.c:1219-1271 | on success the item is the root of a tree of new items, no item twice, correctly linked, that stands for the value of the function; offset and depth are right |
| `JsonParseBuffer.ParseBuffer.ParseElements` | engine/thirdparty/cJSON.c:1380-1420 | the loop with its step back links new items for exactly the elements of the list |
| `JsonParseBuffer.ParseBuffer.NextElement` | engine/thirdparty/cJSON.c:1383-1413 | one turn: a new item behind the last one, filled with the next element |
| `JsonParseBuffer.ParseBuffer.ParseArray` | engine/thirdparty/cJSON.c:1348-1439 | the item becomes an array whose children are the parsed list; a success restores the depth |
| `JsonParseBuffer.ParseBuffer.ParseKey` | engine/thirdparty/cJSON.c:1559-1575 | the name, moved from the text to the key of the item, and the colon |
| `JsonParseBuffer.ParseBuffer.ParseMember` | engine/thirdparty/cJSON.c:1559-1584 | an item with its key and the tree of its value |
| `JsonParseBuffer.ParseBuffer.NextMember` | engine/thirdparty/cJSON.c:1536-1584 | one turn: a new item behind the last one, filled with the next member |
| `JsonParseBuffer.ParseBuffer.ParseMemberList` | engine/thirdparty/cJSON.c:1534-1592 | the loop with its step back links new items for exactly the members, with their keys |
| `JsonParseBuffer.ParseBuffer.ParseObject` | engine/thirdparty/cJSON.c:1504-1610 | the item becomes an object whose children are the parsed members; a success restores the depth |
| `JsonParseBuffer.ParseBuffer.ParseWithOpts` | engine/thirdparty/cJSON.c:1007-1084 | the whole call: a tree of new items for exactly the accepted texts, null for the others, and the parse end or error position |
| `JsonPrintBuffer.PrintBuffer.Ensure` | engine/thirdparty/cJSON.c:380-465 | keeps the settled text across a reallocation to twice the need, or INT_MAX; without allocation failures it succeeds if and only if the room exists |
| `JsonPrintBuffer.PrintBuffer.UpdateOffset` | engine/thirdparty/cJSON.c:468-478 | the offset moves to the next zero byte |
| `JsonPrintBuffer.CountEscapes` | engine/thirdparty/cJSON.c:861-885 | the counting loop |
| `JsonPrintBuffer.NothingToEscape` | engine/thirdparty/cJSON.c:893-901 | the shortcut without escapes writes the same text |
| `JsonPrintBuffer.PrintBuffer.CopyEscaped` | engine/thirdparty/cJSON.c:903-950 | the copy loop writes exactly the escaped string |
| `JsonPrintBuffer.PrintBuffer.PrintString` | engine/thirdparty/cJSON.c:834-953 | exactly the literal and a zero byte, and success if and only if it fits |
| `JsonPrintBuffer.PrintBuffer.PrintNumber` | engine/thirdparty/cJSON.c:481-544 | exactly the number text, and success if and only if it fits |
| `JsonPrintBuffer.PrintBuffer.PrintValue` | engine/thirdparty/cJSON.c:1274-1345 | earlier text survives, the pure text and a zero byte follow, and success if and only if the text and two more bytes fit |
| `JsonPrintBuffer.PrintBuffer.PrintArray` | engine/thirdparty/cJSON.c:1442-1501 | likewise, through the deferred offset updates |
| `JsonPrintBuffer.PrintBuffer.PrintObject` | engine/thirdparty/cJSON.c:1613-1724 | likewise, with the indentation |
| `JsonPrintBuffer.PrintPreallocated` | engine/thirdparty/cJSON.c:1199-1216 | succeeds if and only if the buffer has two bytes more than the text, and then holds it |
| `JsonPrintBuffer.PrintAllocated` | engine/thirdparty/cJSON.c:1094-1156 | for any first allocation: the result is exactly the text and its terminator |
| `JsonCompare.SameKeyIff` | engine/thirdparty/cJSON.c:101-122 | keys are compared by their lower case, or by themselves |
| `JsonCompare.LowerByteIs` | engine/thirdparty/cJSON.c:113-119 | exactly the 26 capital letters are lowered |
| `JsonCompare.LookupMeans` | engine/thirdparty/cJSON.c:1779-1809 | the first member with a key is the one that counts |
| `JsonCompare.CompareIff` | engine/thirdparty/cJSON.c:2837-2960 | two trees compare equal if and only if they mean the same, with objects as maps, and both are coherent |
| `JsonCompare.CompareReflexiveIff` | engine/thirdparty/cJSON.c:2837-2960 | a copy compares equal if and only if members that share a key agree and there are no NaNs |
| `JsonCompare.CompareSymmetric` | engine/thirdparty/cJSON.c:2837-2960 | symmetry, for all trees |
| `JsonCompare.CompareTransitive` | engine/thirdparty/cJSON.c:2837-2960 | transitivity, for all trees |
| `JsonCompare.RepeatedKeyBreaksReflexivity` | engine/thirdparty/cJSON.c:2919-2955 | an object with a repeated key that differs from its own copy |
| `JsonCompare.CompareOnDistinctKeys` | engine/thirdparty/cJSON.c:2837-2960 | with distinct keys and without NaNs the comparison is equality of meaning |
| `JsonCompare.OrderIsIgnored` | engine/thirdparty/cJSON.c:2919-2955 | objects with the same members in any order compare equal |
| `JsonList.GetArrayItem` | engine/thirdparty/cJSON.c:1750-1767 | the item at the index, or null |
| `JsonList.AddItemToArray` | engine/thirdparty/cJSON.c:1855-1882 | a list again, one longer, if and only if the new item's own pointers were null where they are not set |
| `JsonList.InsertItemInArray` | engine/thirdparty/cJSON.c:2152-2179 | insertion into the sequence, at the end beyond it, nothing for a negative index; `next` and `prev` stay inverse |
| `JsonList.DetachItem` | engine/thirdparty/cJSON.c:2082-2110 | removal from the sequence; the item points nowhere |
| `JsonList.ReplaceItem` | engine/thirdparty/cJSON.c:2181-2214 | replacement in the sequence |
| `JsonTrees.HoldsFrame` | engine/thirdparty/cJSON.c:2612-2620 | linking a subtree to its neighbours does not change it |
| `JsonDuplicate.CopyChildren` | engine/thirdparty/cJSON.c:2605-2627 | the loop links fresh copies of all children in order |
| `JsonDuplicate.Duplicate` | engine/thirdparty/cJSON.c:2561-2638 | the copy is made of new items only, no item twice, correctly linked, with the same data and shape |
| `JsonCompareItems.GetObjectItem` | engine/thirdparty/cJSON.c:1779-1809 | the walk finds the first child with the name, past children without one only when case is ignored |
| `JsonCompareItems.FindIsFirstNamed` | engine/thirdparty/cJSON.c:1779-1809 | exactly which child get_object_item finds, children without a name included |
| `JsonCompareItems.RawCompares` | engine/thirdparty/cJSON.c:2883-2894 | raw items are compared by their texts, whatever the flags of their kinds |
| `JsonCompareItems.InvalidIsUnequal` | engine/thirdparty/cJSON.c:2839-2859 | items of different or invalid kinds are unequal, even to themselves |
| `JsonCompareItems.Compare` | engine/thirdparty/cJSON.c:2837-2960 | on linked items, shared or not, with the shortcut for the same item: decides Same |
| `JsonCompareItems.CompareLists` | engine/thirdparty/cJSON.c:2895-2917 | the loop over two arrays |
| `JsonCompareItems.CompareMembers` | engine/thirdparty/cJSON.c:2919-2955 | one of the two loops over objects |
| `JsonCompareItems.SameIsCompare` | engine/thirdparty/cJSON.c:2837-2960 | trees without a common item are compared by their values, exactly as in CompareIff |
| `JsonCompareItems.OneTree` | engine/thirdparty/cJSON.c:2861-2865 | two trees of one heap with the same root are the same tree, so the shortcut is sound |
| `JsonCompareItems.ComparedByMeaning` | engine/thirdparty/cJSON.c:2837-2960 | any two trees with coherent values, shared items or not, compare equal if and only if they mean the same |
| `JsonCompareItems.CopyComparesEqualIff` | engine/thirdparty/cJSON.c:2837-2960 | an item and its duplicate compare equal if and only if its value is coherent |
| `JsonCompareItems.CopyComparesEqual` | engine/thirdparty/cJSON.c:2837-2960 | so they do with distinct keys and without NaNs |

## Left out

- Scheduler: sequence numbers and barriers, which only decide whether a task is stale and are an oracle here.
- Scheduler: the CPU histogram, the iteration and migration counters, and the dump that resets the transaction
  counters; the transaction balance is stated between dumps.
- Scheduler: 32-bit overflow of the counters.
- EveryRunIsSafe: does not continue after a TASK_DEPARTED for a task that is not blocked, because the state is then no
  longer safe, as NextIsSafeIff says.
- RunSeparates: does not continue after a new task that mixes the priorities, because the queues are then mixed, as
  EveryRunSeparatesIff says.
- Pipeline: the fast path and the coprocessors run as steps of a state machine, not as loops of real threads, since
  they interleave; a single call of `coprocessor` is also modelled in place and shown to be such a run.
- Pipeline: ring and port internals, the decision of the firewall, the build without network functions, statistics
  printing, and wrap-around of the 64-bit counters.
- ReadConfig: does not model the creation of the rings, because a ring is only its contents and capacity here.
- JSON: double formatting and `strtod`, the locale's decimal point, allocator hooks other than success and failure,
  printing and copying of raw items, references, printing a `valuestring` that is NULL, and
  `cJSON_Minify`.
- ParseText: states of an error position that it is inside the text and, when something follows the value, which byte
  it is; other positions are only those that the code happens to stand at.
- PrintAllocated: does not model `realloc` shrinking the buffer in place, because the result is the same text.
- ParseWithOpts: does not model the deletion of a partly built tree after a failure nor the integer copy of a number,
  because items that nothing refers to have no effect on the result and `valueint` is read nowhere in the model.
- Duplicate: does not model allocation failure, a copy without recursion, and constant keys that are shared.
- AddItemToArray: does not model an item that is already in the list or is the parent itself, which the callers exclude.
- JSON: deletion, creation helpers and type predicates, which would only add easy members.
- The orchestrator, the cgroup watcher, `agent_net.cc`, `main.c` and `interface.c`: system calls and process plumbing.
