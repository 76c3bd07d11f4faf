/**
 Cancelling a consolidation: where it is noticed the candidate is reported
 cancelled and left as it was, whatever failed before, and nothing is reported
 cancelled that was not.
 */
module ConsolidationCancellation {
  import opened Bytes
  import opened Records
  import opened FileSystem
  import opened Consolidation
  import opened ConsolidationItem

  /** The state after n calls, the first of them ending as `choices(t)` says. */
  function StateAfter(job: Job, s: State, choices: nat -> Choice, t: nat, n: nat): State
    decreases n
  {
    if n == 0 then s else StateAfter(job, Step(job, s, choices(t)), choices, t + 1, n - 1)
  }

  /** A call that looks at the context: all that open, inspect and hash, the check
      between the volumes and the candidate, and those before the rename and the link. */
  predicate ChecksContext(job: Job, s: State) {
    || (KeeperPhase(s.pc) && s.pc.i < |job.keepers|)
    || (s.pc.CheckVolume? && s.keeper.volume == job.target.identity.volume)
    || s.pc.OpenTarget? || s.pc.InspectTarget? || s.pc.HashTarget? || s.pc.PrepareBackup? || s.pc.LinkKeeper?
  }

  lemma ReturnedStays(job: Job, s: State, choices: nat -> Choice, t: nat, n: nat)
    requires s.pc.Returned?
    ensures StateAfter(job, s, choices, t, n) == s
    decreases n
  {
  }

  lemma FinishStep(job: Job, s: State, choices: nat -> Choice, t: nat)
    requires !s.pc.Returned?
    ensures Finish(job, s, choices, t) == Finish(job, Step(job, s, choices(t)), choices, t + 1)
  {
  }

  lemma CancelStep(job: Job, s: State)
    requires ChecksContext(job, s)
    ensures var s' := Step(job, s, Fail(ContextDone));
            if s.pc.LinkKeeper? then s' == s.(pc := Restore(Cancelled))
            else if KeeperPhase(s.pc) then s'.pc == Returned(Item(job.target.path, Cancelled, None))
            else if s.pc.PrepareBackup? then s'.pc == CloseTarget(Item(job.target.path, Cancelled, None))
            else s'.pc == CloseKeeper(Item(job.target.path, Cancelled, None))
  {
  }

  lemma ClosesWith(job: Job, s: State, choices: nat -> Choice, t: nat, item: Item)
    requires s.pc == Returned(item) || s.pc == CloseKeeper(item) || s.pc == CloseTarget(item)
    ensures Finish(job, s, choices, t).pc == Returned(item)
  {
    if s.pc == CloseTarget(item) {
      FinishStep(job, s, choices, t);
      FinishStep(job, Step(job, s, choices(t)), choices, t + 1);
    } else if s.pc == CloseKeeper(item) {
      FinishStep(job, s, choices, t);
    }
  }

  lemma RestoredWith(job: Job, w: World, s: State, choices: nat -> Choice, t: nat, k: FileRecord)
    requires Idle(w) && s.pc == Restore(Cancelled) && Tracks(job, w, s, k) && choices(t).Go?
    ensures Finish(job, s, choices, t).pc == Returned(Item(job.target.path, Cancelled, None))
  {
    assert job.target.path in Links(w, job.target.identity);
    FinishStep(job, s, choices, t);
    ClosesWith(job, Step(job, s, choices(t)), choices, t + 1, Item(job.target.path, Cancelled, None));
  }

  /** Noticed in state s, cancellation is what is reported. */
  lemma CancelledFrom(job: Job, w: World, s: State, choices: nat -> Choice, t: nat, k: FileRecord)
    requires Idle(w) && Tracks(job, w, s, k) && ChecksContext(job, s)
    requires choices(t) == Fail(ContextDone) && choices(t + 1).Go?
    ensures Finish(job, s, choices, t).pc == Returned(Item(job.target.path, Cancelled, None))
  {
    CancelStep(job, s);
    var next := Step(job, s, choices(t));
    if s.pc.LinkKeeper? {
      var k1 := StepTracks(job, w, s, choices(t), k);
      RestoredWith(job, w, next, choices, t + 1, k1);
    } else {
      ClosesWith(job, next, choices, t + 1, Item(job.target.path, Cancelled, None));
    }
  }

  lemma NotYetReturned(job: Job, s: State, choices: nat -> Choice, t: nat, n: nat)
    requires ChecksContext(job, StateAfter(job, s, choices, t, n))
    ensures !s.pc.Returned?
  {
    if s.pc.Returned? { ReturnedStays(job, s, choices, t, n); }
  }

  /** And noticed later, too. */
  lemma {:induction false} CancelledLater(job: Job, w: World, s: State, choices: nat -> Choice, t: nat, n: nat,
                                          k: FileRecord)
    requires Idle(w) && Tracks(job, w, s, k) && t <= n && ChecksContext(job, StateAfter(job, s, choices, t, n - t))
    requires choices(n) == Fail(ContextDone) && choices(n + 1).Go?
    ensures Finish(job, s, choices, t).pc == Returned(Item(job.target.path, Cancelled, None))
    decreases n - t, 1
  {
    if n == t {
      CancelledFrom(job, w, s, choices, t, k);
    } else {
      NotYetReturned(job, s, choices, t, n - t);
      CancelledNext(job, w, s, choices, t, n, k);
      FinishStep(job, s, choices, t);
    }
  }

  lemma {:induction false} CancelledNext(job: Job, w: World, s: State, choices: nat -> Choice, t: nat, n: nat,
                                         k: FileRecord)
    requires Idle(w) && Tracks(job, w, s, k) && t < n && ChecksContext(job, StateAfter(job, s, choices, t, n - t))
    requires choices(n) == Fail(ContextDone) && choices(n + 1).Go? && !s.pc.Returned?
    ensures Finish(job, Step(job, s, choices(t)), choices, t + 1).pc
         == Returned(Item(job.target.path, Cancelled, None))
    decreases n - t, 0
  {
    var next := StepTracks(job, w, s, choices(t), k);
    CancelledLater(job, w, Step(job, s, choices(t)), choices, t + 1, n, next);
  }

  lemma CancelledUntouched(job: Job, w: World, choices: nat -> Choice)
    requires Idle(w) && Finish(job, Start(w), choices, 0).pc.item == Item(job.target.path, Cancelled, None)
    ensures var end := Finish(job, Start(w), choices, 0);
            end.world.names == w.names && end.world.objects == w.objects
  {
    assert Tracks(job, w, Start(w), job.target);
    var _ := RunSettles(job, w, Start(w), choices, 0, job.target);
  }

  /** Cancellation that is noticed at any such call is reported, and every name and
      object is as before; the call that puts a renamed candidate back has to succeed. */
  lemma CancelledCleanly(job: Job, w: World, choices: nat -> Choice, n: nat)
    requires Idle(w) && choices(n) == Fail(ContextDone) && choices(n + 1).Go?
    requires ChecksContext(job, StateAfter(job, Start(w), choices, 0, n))
    ensures var end := Finish(job, Start(w), choices, 0);
            && end.pc.item == Item(job.target.path, Cancelled, None)
            && end.world.names == w.names && end.world.objects == w.objects
  {
    assert Tracks(job, w, Start(w), job.target);
    CancelledLater(job, w, Start(w), choices, 0, n, job.target);
    CancelledUntouched(job, w, choices);
  }

  predicate CarriesCancelled(pc: Pc) {
    pc == Restore(Cancelled)
    || ((pc.CloseTarget? || pc.CloseKeeper? || pc.Returned?) && pc.item.status == Cancelled)
  }

  lemma CancelledByStep(job: Job, s: State, c: Choice)
    requires CarriesCancelled(Step(job, s, c).pc) && !CarriesCancelled(s.pc)
    ensures c == Fail(ContextDone) || (c.Fail? && s.pc.CheckVolume?)
  {
    if KeeperPhase(s.pc) {
      KeeperCancelled(job, s, c);
    } else if TargetPhase(s.pc) {
      TargetCancelled(job, s, c);
    } else if ReplacePhase(s.pc) {
      ReplaceCancelled(job, s, c);
    }
  }

  lemma KeeperCancelled(job: Job, s: State, c: Choice)
    requires KeeperPhase(s.pc) && CarriesCancelled(StepKeeper(job, s, c).pc)
    ensures c == Fail(ContextDone)
  {
  }

  lemma TargetCancelled(job: Job, s: State, c: Choice)
    requires TargetPhase(s.pc) && CarriesCancelled(StepTarget(job, s, c).pc)
    ensures c == Fail(ContextDone) || (c.Fail? && s.pc.CheckVolume?)
  {
  }

  lemma ReplaceCancelled(job: Job, s: State, c: Choice)
    requires ReplacePhase(s.pc) && CarriesCancelled(StepReplace(job, s, c).pc) && s.pc != Restore(Cancelled)
    ensures c == Fail(ContextDone)
  {
  }

  /** Nothing is reported cancelled unless a call noticed it. */
  lemma {:induction false} CancelledWasNoticed(job: Job, s: State, choices: nat -> Choice, t: nat) returns (n: nat)
    requires Finish(job, s, choices, t).pc.item.status == Cancelled && !CarriesCancelled(s.pc)
    ensures t <= n && (choices(n) == Fail(ContextDone)
                       || (choices(n).Fail? && StateAfter(job, s, choices, t, n - t).pc.CheckVolume?))
    decreases Rank(job, s.pc)
  {
    var next := Step(job, s, choices(t));
    if CarriesCancelled(next.pc) {
      CancelledByStep(job, s, choices(t));
      n := t;
    } else {
      StepLowersRank(job, s, choices(t));
      n := CancelledWasNoticed(job, next, choices, t + 1);
    }
  }
}
