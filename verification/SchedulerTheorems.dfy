/** A scheduling round conserves work. */
module SchedulerTheorems {
  import opened Options
  import opened CpuLists
  import opened SchedulerState
  import opened SchedulerInvariant
  import opened SchedulerSteps
  import opened SchedulerRound

  // ---------------------------------------------------------------- work conservation

  /** No CPU that the round could still use is permitted to t. */
  ghost predicate NoCpuLeft(r: Round, t: TaskId)
    requires t in r.s.tasks
  {
    forall c :: c in r.avail || c in r.low ==> r.s.cfg.enforceAffinity && c !in r.s.tasks[t].allowed
  }

  /** What has become of a task that the round picked. */
  ghost predicate PickedOk(r: Round, k: Kernel, t: TaskId) {
    && t in r.s.tasks
    && (r.s.tasks[t].runState.Pending? || r.s.tasks[t].runState.OnCpu? || r.s.tasks[t].runState.Yielding?)
    && (forall c :: c in r.low && c < |r.s.slots| ==> r.s.slots[c].current != Some(t))
    && (t in k.stale ==> r.s.tasks[t].runState.Yielding?)
    && (r.s.tasks[t].runState.Yielding? && t !in k.stale && t !in r.lost ==> NoCpuLeft(r, t))
  }

  ghost predicate History(r: Round, k: Kernel) {
    && (forall i, j :: 0 <= i < j < |r.picked| ==> r.picked[i] != r.picked[j])
    && (forall t {:trigger PickedOk(r, k, t)} :: t in r.picked ==> PickedOk(r, k, t))
  }

  /** A turn that leaves the earlier picks alone keeps their history. */
  lemma HistoryFrame(r: Round, k: Kernel, r': Round, t: TaskId)
    requires History(r, k)
    requires t !in r.picked && r'.picked == r.picked + [t]
    requires r'.s.cfg == r.s.cfg && r'.avail <= r.avail && r'.low <= r.low && r.lost <= r'.lost
    requires forall x :: x in r.picked && x in r.s.tasks ==> x in r'.s.tasks && r'.s.tasks[x] == r.s.tasks[x]
    requires |r'.s.slots| == |r.s.slots|
    requires forall c :: c in r'.low && c < |r.s.slots| ==> r'.s.slots[c] == r.s.slots[c]
    requires PickedOk(r', k, t)
    ensures History(r', k)
  {
    forall x | x in r'.picked
      ensures PickedOk(r', k, x)
    {
      if x != t {
        assert x in r.picked;
        assert PickedOk(r, k, x);
      }
    }
    assert forall i :: 0 <= i < |r.picked| ==> r'.picked[i] == r.picked[i];
  }

  /** The head of the queue has not been picked in this round. */
  lemma HeadIsNew(r: Round, k: Kernel)
    requires RoundInv(r, k) && History(r, k) && Head(r.s).Some?
    ensures var t := Head(r.s).value;
            t in r.s.tasks && r.s.tasks[t].runState.Queued? && t !in r.picked
            && forall c :: c in r.low && c < |r.s.slots| ==> r.s.slots[c].current != Some(t)
  {
    Aspects(r.s);
    PlacementIsDefined(r, k);
    var t := Head(r.s).value;
    forall x | x in r.picked
      ensures x != t
    {
      assert PickedOk(r, k, x);
    }
    forall c | c in r.low && c < |r.s.slots|
      ensures r.s.slots[c].current != Some(t)
    {
      assert SlotOk(r.s, {}, c);
    }
  }

  lemma YieldTurnHistory(r: Round, k: Kernel)
    requires RoundInv(r, k) && History(r, k) && Head(r.s).Some?
    requires var t := Head(r.s).value;
             t in r.s.tasks ==> t in k.stale || (IdleChoice(r, t).None? && PreemptChoice(r, t).None?)
    ensures History(PlaceOne(r, k), k)
  {
    HeadIsNew(r, k);
    var t := Head(r.s).value;
    var r' := PlaceOne(r, k);
    if t !in k.stale {
      var task := r.s.tasks[t];
      assert Permitted(r.avail, task.allowed, r.s.cfg.enforceAffinity) == {};
      assert Permitted(r.low, task.allowed, r.s.cfg.enforceAffinity) == {};
      forall c | c in r'.avail || c in r'.low
        ensures r.s.cfg.enforceAffinity && c !in task.allowed
      {
        assert c !in Permitted(r.avail, task.allowed, r.s.cfg.enforceAffinity);
        assert c !in Permitted(r.low, task.allowed, r.s.cfg.enforceAffinity);
      }
    }
    assert PickedOk(r', k, t);
    HistoryFrame(r, k, r', t);
  }

  lemma AssignTurnHistory(r: Round, k: Kernel)
    requires RoundInv(r, k) && History(r, k) && Head(r.s).Some?
    requires var t := Head(r.s).value;
             t in r.s.tasks ==> t !in k.stale && IdleChoice(r, t).Some?
    ensures History(PlaceOne(r, k), k)
  {
    HeadIsNew(r, k);
    var t := Head(r.s).value;
    var r' := PlaceOne(r, k);
    var c := IdleChoice(r, t).value;
    ChoiceIsPermitted(r, t);
    assert c !in r.low;
    assert PickedOk(r', k, t);
    HistoryFrame(r, k, r', t);
  }

  lemma ReplaceHistory(r: Round, k: Kernel, r': Round, t: TaskId, c: CpuId)
    requires History(r, k)
    requires CpusReady(r.s, r.avail, r.low) && c in r.low && t in r.s.tasks && t !in k.stale
    requires forall d :: d in r.low && d < |r.s.slots| ==> r.s.slots[d].current != Some(t)
    requires t !in r.picked && Victim(r.s, c) !in r.picked
    requires ReplaceDefined(Dequeue(r.s), c, t, k.runtime(Victim(r.s, c)))
    requires r' == Round(ReplaceExistingTask(Dequeue(r.s), c, t, c in k.commits, k.runtime(Victim(r.s, c)),
                                             k.submitTime(c)),
                         r.avail, r.low - {c}, if c in k.commits then r.lost else r.lost + {t}, r.picked + [t])
    ensures History(r', k)
  {
    ReplaceFrame(Dequeue(r.s), c, t, c in k.commits, k.runtime(Victim(r.s, c)), k.submitTime(c));
    ReplacedIsPicked(r, k, r', t, c);
    HistoryFrame(r, k, r', t);
  }

  lemma ReplacedIsPicked(r: Round, k: Kernel, r': Round, t: TaskId, c: CpuId)
    requires t !in k.stale && t in r'.s.tasks && |r'.s.slots| == |r.s.slots| && r'.low == r.low - {c}
    requires r'.s.tasks[t].runState.OnCpu? || (r'.s.tasks[t].runState.Yielding? && t in r'.lost)
    requires forall d :: d in r.low && d < |r.s.slots| ==> r.s.slots[d].current != Some(t)
    requires forall d :: 0 <= d < |r.s.slots| && d != c ==> r'.s.slots[d] == r.s.slots[d]
    ensures PickedOk(r', k, t)
  {
  }

  lemma ReplaceTurnHistory(r: Round, k: Kernel)
    requires RoundInv(r, k) && History(r, k) && Head(r.s).Some?
    requires var t := Head(r.s).value;
             t in r.s.tasks ==> t !in k.stale && IdleChoice(r, t).None? && PreemptChoice(r, t).Some?
    ensures History(PlaceOne(r, k), k)
  {
    HeadIsNew(r, k);
    PlacementIsDefined(r, k);
    var t := Head(r.s).value;
    var r' := PlaceOne(r, k);
    var c := PreemptChoice(r, t).value;
    ChoiceIsPermitted(r, t);
    var s1 := Dequeue(r.s);
    ReplaceIsDefined(s1, c, t, k.runtime(Victim(s1, c)));
    forall x | x in r.picked
      ensures x != Victim(s1, c)
    {
      assert PickedOk(r, k, x);
    }
    ReplaceHistory(r, k, r', t, c);
  }

  lemma {:induction false} PlaceAllHistory(r: Round, k: Kernel)
    requires RoundInv(r, k) && History(r, k)
    ensures History(PlaceAll(r, k), k)
    decreases Measure(r)
  {
    if !((r.avail == {} && r.low == {}) || Head(r.s).None?) {
      PlaceOneKeeps(r, k);
      HeadIsNew(r, k);
      var t := Head(r.s).value;
      if t in k.stale || (IdleChoice(r, t).None? && PreemptChoice(r, t).None?) {
        YieldTurnHistory(r, k);
      } else if IdleChoice(r, t).Some? {
        AssignTurnHistory(r, k);
      } else {
        ReplaceTurnHistory(r, k);
      }
      PlaceAllHistory(PlaceOne(r, k), k);
    }
  }

  /**
    A round conserves work. It stops with empty queues or with no CPU left; it picks every task at most
    once; and a task that it set aside although it was ready, and that did not lose a failed commit, has
    no permitted CPU left.
   */
  lemma WorkConserved(s: State, k: Kernel)
    requires Inv(s) && RuntimesGrow(s, k)
    ensures var r := PlaceAll(Scanned(s, k), k);
            && ((r.s.runQ == [] && r.s.lowQ == []) || (r.avail == {} && r.low == {}))
            && (forall i, j :: 0 <= i < j < |r.picked| ==> r.picked[i] != r.picked[j])
            && (forall t :: t in r.picked ==> t in r.s.tasks && !r.s.tasks[t].runState.Queued?)
            && (forall t, c ::
                  t in r.picked && t in r.s.tasks && r.s.tasks[t].runState.Yielding?
                  && t !in k.stale && t !in r.lost && (c in r.avail || c in r.low) ==>
                  s.cfg.enforceAffinity && c !in r.s.tasks[t].allowed)
  {
    var r0 := Scanned(s, k);
    assert History(r0, k);
    PlaceAllHistory(r0, k);
    var r := PlaceAll(r0, k);
    forall t | t in r.picked
      ensures t in r.s.tasks && !r.s.tasks[t].runState.Queued?
      ensures r.s.tasks[t].runState.Yielding? && t !in k.stale && t !in r.lost ==> NoCpuLeft(r, t)
    {
      assert PickedOk(r, k, t);
    }
  }
}
