/**
 What every intermediate state of a consolidation keeps, whatever calls fail,
 wherever cancellation strikes and whatever other processes do in between.
 */
module ConsolidationSafety {
  import opened Bytes
  import opened Records
  import opened FileSystem
  import opened Consolidation

  // ------------------------------------------------------------------
  // The invariant of every intermediate state.

  ghost predicate KeeperVerified(job: Job, s: State) {
    Bound(s.world, s.keeperPath, s.keeper) && job.sha(Look(s.world, s.keeper).bytes) == job.hash
  }

  /** The verified candidate, byte for byte, is what path `p` names. */
  ghost predicate TargetAt(job: Job, s: State, p: Path) {
    && s.verified.Some? && job.sha(s.verified.value) == job.hash
    && Bound(s.world, p, s.target) && Look(s.world, s.target).bytes == s.verified.value
  }

  /** The handles this process holds at each program point. */
  ghost predicate HandlesAt(s: State) {
    match s.pc
    case OpenKeeper(_) | Returned(_) => s.world.handles == {}
    case InspectKeeper(_) | HashKeeper(_, _) | CheckVolume | OpenTarget | CloseKeeper(_) =>
      s.world.handles == {ReadHandle(s.keeper)}
    case _ => s.world.handles == {ReadHandle(s.keeper), DeleteHandle(s.target)} && s.keeper != s.target
  }

  ghost predicate ItemHolds(job: Job, s: State, item: Item) {
    && item.path == job.target.path
    && (item.status == Consolidated ==>
          item.backup == None && TargetAt(job, s, job.backup) && Bound(s.world, job.target.path, s.keeper))
    && (item.status != Consolidated ==>
          && (item.backup == None || item.backup == Some(job.backup))
          && TargetAt(job, s, if item.backup.Some? then item.backup.value else job.target.path))
  }

  ghost predicate PointHolds(job: Job, s: State) {
    match s.pc
    case OpenKeeper(_) => true
    case InspectKeeper(_) | HashKeeper(_, _) => s.pc.i < |job.keepers| && Bound(s.world, s.keeperPath, s.keeper)
    case CheckVolume | OpenTarget => KeeperVerified(job, s)
    case InspectTarget | HashTarget(_) => KeeperVerified(job, s) && Bound(s.world, job.target.path, s.target)
    case PrepareBackup | RenameAside => KeeperVerified(job, s) && TargetAt(job, s, job.target.path)
    case LinkKeeper | VerifyLink => KeeperVerified(job, s) && TargetAt(job, s, job.backup)
    case Restore(cause) => KeeperVerified(job, s) && TargetAt(job, s, job.backup) && cause != Consolidated
    case DisposeBackup =>
      KeeperVerified(job, s) && TargetAt(job, s, job.backup) && Bound(s.world, job.target.path, s.keeper)
    case CloseTarget(item) => KeeperVerified(job, s) && ItemHolds(job, s, item)
    case CloseKeeper(item) =>
      && KeeperVerified(job, s) && item.path == job.target.path
      && (item.status == Consolidated ==>
            s.verified.Some? && item.backup == None && Bound(s.world, job.target.path, s.keeper))
    case Returned(item) => item.path == job.target.path
  }

  ghost predicate Valid(job: Job, s: State) {
    && WorldOk(s.world)
    && HandlesAt(s)
    && PointHolds(job, s)
    && s.world.deletePending ==
         (if s.pc.CloseTarget? && s.pc.item.status == Consolidated then {s.target} else {})
    && (s.verified.Some? ==>
          && job.sha(s.verified.value) == job.hash
          && !(s.pc.OpenKeeper? || s.pc.InspectKeeper? || s.pc.HashKeeper? || s.pc.CheckVolume?
                               || s.pc.OpenTarget? || s.pc.InspectTarget? || s.pc.HashTarget?))
  }

  predicate PastIdentityCheck(s: State) {
    || s.pc.DisposeBackup?
    || ((s.pc.CloseTarget? || s.pc.CloseKeeper? || s.pc.Returned?) && s.pc.item.status == Consolidated)
  }

  lemma OpenKeeperValid(job: Job, s: State, c: Choice)
    requires Valid(job, s) && s.pc.OpenKeeper?
    ensures Valid(job, StepKeeper(job, s, c))
  {
  }

  lemma InspectKeeperValid(job: Job, s: State, c: Choice)
    requires Valid(job, s) && s.pc.InspectKeeper?
    ensures Valid(job, StepKeeper(job, s, c))
  {
  }

  lemma HashKeeperValid(job: Job, s: State, c: Choice)
    requires Valid(job, s) && s.pc.HashKeeper?
    ensures Valid(job, StepKeeper(job, s, c))
  {
  }

  lemma CheckVolumeValid(job: Job, s: State, c: Choice)
    requires Valid(job, s) && s.pc.CheckVolume?
    ensures Valid(job, StepTarget(job, s, c))
  {
  }

  lemma RefusedValid(job: Job, s: State, e: Error)
    requires Valid(job, s) && (s.pc.OpenTarget? || s.pc.InspectTarget? || s.pc.HashTarget?)
    ensures Valid(job, TargetRefused(job, s, e))
  {
  }

  lemma OpenedValid(job: Job, s: State, file: Identity)
    requires Valid(job, s) && s.pc.OpenTarget? && Bound(s.world, job.target.path, file)
             && CanOpen(s.world, DeleteHandle(file))
    ensures Valid(job, s.(pc := InspectTarget, world := Open(s.world, DeleteHandle(file)), target := file))
  {
  }

  lemma OpenTargetValid(job: Job, s: State, c: Choice)
    requires Valid(job, s) && s.pc.OpenTarget?
    ensures Valid(job, StepTarget(job, s, c))
  {
    if StepTarget(job, s, c).pc.InspectTarget? {
      OpenedValid(job, s, s.world.names[job.target.path]);
    } else {
      RefusedValid(job, s,
                   if c.Fail? then c.error else if job.target.path !in s.world.names then NotExist else OtherError);
    }
  }

  lemma InspectTargetValid(job: Job, s: State, c: Choice)
    requires Valid(job, s) && s.pc.InspectTarget?
    ensures Valid(job, StepTarget(job, s, c))
  {
  }

  lemma HashTargetValid(job: Job, s: State, c: Choice)
    requires Valid(job, s) && s.pc.HashTarget?
    ensures Valid(job, StepTarget(job, s, c))
  {
  }

  lemma PrepareBackupValid(job: Job, s: State, c: Choice)
    requires Valid(job, s) && s.pc.PrepareBackup?
    ensures Valid(job, StepTarget(job, s, c))
  {
  }

  lemma RenameAsideValid(job: Job, s: State, c: Choice)
    requires Valid(job, s) && s.pc.RenameAside?
    ensures Valid(job, StepReplace(job, s, c))
  {
  }

  lemma LinkKeeperValid(job: Job, s: State, c: Choice)
    requires Valid(job, s) && s.pc.LinkKeeper?
    ensures Valid(job, StepReplace(job, s, c))
  {
  }

  lemma VerifyLinkValid(job: Job, s: State, c: Choice)
    requires Valid(job, s) && s.pc.VerifyLink?
    ensures Valid(job, StepReplace(job, s, c))
  {
  }

  lemma DisposeBackupValid(job: Job, s: State, c: Choice)
    requires Valid(job, s) && s.pc.DisposeBackup?
    ensures Valid(job, StepReplace(job, s, c))
  {
  }

  lemma RestoreValid(job: Job, s: State, c: Choice)
    requires Valid(job, s) && s.pc.Restore?
    ensures Valid(job, StepReplace(job, s, c))
  {
  }

  lemma CloseStepValid(job: Job, s: State, c: Choice)
    requires Valid(job, s) && (s.pc.CloseTarget? || s.pc.CloseKeeper? || s.pc.Returned?)
    ensures Valid(job, Step(job, s, c))
  {
  }

  lemma StepPreservesValid(job: Job, s: State, c: Choice)
    requires Valid(job, s)
    ensures Valid(job, Step(job, s, c))
  {
    match s.pc
    case OpenKeeper(_) => OpenKeeperValid(job, s, c);
    case InspectKeeper(_) => InspectKeeperValid(job, s, c);
    case HashKeeper(_, _) => HashKeeperValid(job, s, c);
    case CheckVolume => CheckVolumeValid(job, s, c);
    case OpenTarget => OpenTargetValid(job, s, c);
    case InspectTarget => InspectTargetValid(job, s, c);
    case HashTarget(_) => HashTargetValid(job, s, c);
    case PrepareBackup => PrepareBackupValid(job, s, c);
    case RenameAside => RenameAsideValid(job, s, c);
    case LinkKeeper => LinkKeeperValid(job, s, c);
    case VerifyLink => VerifyLinkValid(job, s, c);
    case DisposeBackup => DisposeBackupValid(job, s, c);
    case Restore(_) => RestoreValid(job, s, c);
    case CloseTarget(_) | CloseKeeper(_) | Returned(_) => CloseStepValid(job, s, c);
  }

  lemma StepKeepsVerified(job: Job, s: State, c: Choice)
    requires Valid(job, s) && s.verified.Some?
    ensures Step(job, s, c).verified == s.verified
  {
  }

  lemma StepEntersDisposal(job: Job, s: State, c: Choice)
    requires PastIdentityCheck(Step(job, s, c)) && !PastIdentityCheck(s)
    requires s.pc.Restore? ==> s.pc.cause != Consolidated
    ensures s.pc.VerifyLink? && Step(job, s, c).pc.DisposeBackup? && Bound(s.world, job.target.path, s.keeper)
  {
    if KeeperPhase(s.pc) {
      KeeperKeepsOut(job, s, c);
    } else if TargetPhase(s.pc) {
      TargetKeepsOut(job, s, c);
    } else if ReplacePhase(s.pc) {
      ReplaceEntersDisposal(job, s, c);
    }
  }

  lemma KeeperKeepsOut(job: Job, s: State, c: Choice)
    requires KeeperPhase(s.pc)
    ensures !PastIdentityCheck(StepKeeper(job, s, c))
  {
  }

  lemma TargetKeepsOut(job: Job, s: State, c: Choice)
    requires TargetPhase(s.pc)
    ensures !PastIdentityCheck(StepTarget(job, s, c))
  {
  }

  lemma ReplaceEntersDisposal(job: Job, s: State, c: Choice)
    requires ReplacePhase(s.pc) && PastIdentityCheck(StepReplace(job, s, c)) && !PastIdentityCheck(s)
    requires s.pc.Restore? ==> s.pc.cause != Consolidated
    ensures s.pc.VerifyLink? && StepReplace(job, s, c).pc.DisposeBackup? && Bound(s.world, job.target.path, s.keeper)
  {
  }

  lemma InterferencePreservesValid(job: Job, s: State, w: World)
    requires Valid(job, s) && Interferes(s.world, w)
    ensures Valid(job, s.(world := w))
  {
  }

  // ------------------------------------------------------------------
  // Whole behaviours.

  /** One system call of ours, with any outcome, or one burst of interference. */
  ghost predicate Next(job: Job, s: State, s': State) {
    || (exists c :: s' == Step(job, s, c))
    || (Interferes(s.world, s'.world) && s' == s.(world := s'.world))
  }

  ghost predicate NextAt(job: Job, run: seq<State>, n: nat)
    requires 0 < n < |run|
  {
    Next(job, run[n - 1], run[n])
  }

  ghost predicate Behaviour(job: Job, run: seq<State>) {
    && |run| > 0
    && run[0] == Start(run[0].world)
    && WorldOk(run[0].world) && run[0].world.handles == {} && run[0].world.deletePending == {}
    && forall n :: 0 < n < |run| ==> NextAt(job, run, n)
  }

  lemma BehaviourExtends(job: Job, run: seq<State>, s: State)
    requires Behaviour(job, run) && Next(job, run[|run| - 1], s)
    ensures Behaviour(job, run + [s])
  {
    var longer := run + [s];
    forall n | 0 < n < |longer|
      ensures NextAt(job, longer, n)
    {
      assert n < |run| ==> NextAt(job, run, n);
    }
  }

  lemma NextFacts(job: Job, s: State, s': State)
    requires Valid(job, s) && Next(job, s, s')
    ensures Valid(job, s')
    ensures s.verified.Some? ==> s'.verified == s.verified
    ensures PastIdentityCheck(s') ==>
              || PastIdentityCheck(s)
              || (s.pc.VerifyLink? && s'.pc.DisposeBackup? && Bound(s.world, job.target.path, s.keeper))
  {
    if Interferes(s.world, s'.world) && s' == s.(world := s'.world) {
      InterferencePreservesValid(job, s, s'.world);
    } else {
      var c :| s' == Step(job, s, c);
      StepPreservesValid(job, s, c);
      if s.verified.Some? { StepKeepsVerified(job, s, c); }
      if PastIdentityCheck(s') && !PastIdentityCheck(s) { StepEntersDisposal(job, s, c); }
    }
  }

  lemma {:induction false} BehaviourStaysValid(job: Job, run: seq<State>, n: nat)
    requires Behaviour(job, run) && n < |run|
    ensures Valid(job, run[n])
  {
    if n > 0 {
      BehaviourStaysValid(job, run, n - 1);
      assert NextAt(job, run, n);
      NextFacts(job, run[n - 1], run[n]);
    }
  }

  /** The keeper's link is what the original path names, its bytes carry the
      group's digest, and the candidate has been given up. */
  ghost predicate Replaced(job: Job, s: State) {
    && (s.pc.CloseTarget? || s.pc.CloseKeeper?) && s.pc.item.status == Consolidated
    && Bound(s.world, job.target.path, s.keeper)
    && job.sha(Look(s.world, s.keeper).bytes) == job.hash
  }

  /** No content is ever lost: from the moment the candidate is verified until
      its handle is released, its bytes are named by the original path or by the
      backup path; once it has been given up, the original path names a keeper
      with the same digest, hence the same bytes unless SHA-256 collides. */
  lemma ContentNeverLost(job: Job, run: seq<State>, n: nat)
    requires Behaviour(job, run) && n < |run|
    requires run[n].verified.Some?
    ensures !run[n].pc.CloseKeeper? && !run[n].pc.Returned? ==>
              TargetAt(job, run[n], job.target.path) || TargetAt(job, run[n], job.backup)
    ensures (run[n].pc.CloseTarget? || run[n].pc.CloseKeeper?) && run[n].pc.item.status == Consolidated ==>
              Replaced(job, run[n])
    ensures Replaced(job, run[n]) && (forall a, b :: job.sha(a) == job.sha(b) == job.hash ==> a == b) ==>
              Look(run[n].world, run[n].keeper).bytes == run[n].verified.value
  {
    BehaviourStaysValid(job, run, n);
  }

  lemma BehaviourKeepsVerified(job: Job, run: seq<State>, n: nat)
    requires Behaviour(job, run) && 0 < n < |run| && run[n - 1].verified.Some?
    ensures run[n].verified == run[n - 1].verified
  {
    BehaviourStaysValid(job, run, n - 1);
    assert NextAt(job, run, n);
    NextFacts(job, run[n - 1], run[n]);
  }

  /** The verified bytes are recorded once and never change afterwards. */
  lemma {:induction false} VerifiedBytesStable(job: Job, run: seq<State>, m: nat, n: nat)
    requires Behaviour(job, run) && m <= n < |run| && run[m].verified.Some?
    ensures run[n].verified == run[m].verified
  {
    if m < n {
      VerifiedBytesStable(job, run, m, n - 1);
      BehaviourKeepsVerified(job, run, n);
    }
  }

  /** While the outcome is reported and the candidate's handle is still held,
      every status but Consolidated means the verified candidate is exactly
      where the report says: at the backup path if one is reported, otherwise
      at its original path. */
  lemma ReportTellsWhere(job: Job, run: seq<State>, n: nat)
    requires Behaviour(job, run) && n < |run| && run[n].pc.CloseTarget?
    ensures var item := run[n].pc.item;
            && item.path == job.target.path
            && (item.status != Consolidated ==>
                  TargetAt(job, run[n], if item.backup.Some? then item.backup.value else item.path))
            && (item.status == Consolidated ==> item.backup == None && Replaced(job, run[n]))
  {
    BehaviourStaysValid(job, run, n);
  }

  /** And at return: if others act at any time before the candidate's handle is
      released but not between release and return, the verified candidate is
      still where the report says, or, if Consolidated, the path names the keeper
      with the group's digest and the candidate is gone. */
  lemma ReportTellsWhereAtReturn(job: Job, run: seq<State>, n: nat)
    requires Behaviour(job, run) && n < |run| && run[n].pc.CloseTarget?
    ensures var item, end := run[n].pc.item, Step(job, Step(job, run[n], Go), Go);
            && end.pc == Returned(item) && end.world.handles == {}
            && (item.status != Consolidated ==>
                  TargetAt(job, end, if item.backup.Some? then item.backup.value else item.path))
            && (item.status == Consolidated ==>
                  && item.backup == None && Bound(end.world, item.path, end.keeper)
                  && job.sha(Look(end.world, end.keeper).bytes) == job.hash && job.backup !in end.world.names)
  {
    BehaviourStaysValid(job, run, n);
    ReportTellsWhere(job, run, n);
    if run[n].pc.item.status == Consolidated {
      ReturnsConsolidated(job, run[n]);
    } else {
      ReturnsAsReported(job, run[n]);
    }
  }

  lemma ReturnsAsReported(job: Job, s: State)
    requires Valid(job, s) && s.pc.CloseTarget? && s.pc.item.status != Consolidated
    ensures var end := Step(job, Step(job, s, Go), Go);
            end == s.(pc := Returned(s.pc.item), world := s.world.(handles := {}))
  {
  }

  lemma ReturnsConsolidated(job: Job, s: State)
    requires Valid(job, s) && s.pc.CloseTarget? && s.pc.item.status == Consolidated
    ensures var end := Step(job, Step(job, s, Go), Go);
            && end.pc == Returned(s.pc.item) && end.keeper == s.keeper && end.world.handles == {}
            && end.world.names == s.world.names - {job.backup}
            && Look(end.world, s.keeper) == Look(s.world, s.keeper)
  {
  }

  /** Nothing is disposed of, and nothing is reported consolidated, before a step
      found the original path to name the keeper's identity. */
  lemma {:induction false} DisposedOnlyAfterIdentityCheck(job: Job, run: seq<State>, n: nat)
    requires Behaviour(job, run) && n < |run|
    requires PastIdentityCheck(run[n]) || run[n].world.deletePending != {}
    ensures exists j :: 0 <= j < n && run[j].pc.VerifyLink? && run[j + 1].pc.DisposeBackup?
                        && Bound(run[j].world, job.target.path, run[j].keeper)
  {
    BehaviourStaysValid(job, run, n);
    assert PastIdentityCheck(run[n]);
    assert n > 0;
    BehaviourStaysValid(job, run, n - 1);
    assert NextAt(job, run, n);
    NextFacts(job, run[n - 1], run[n]);
    if PastIdentityCheck(run[n - 1]) {
      DisposedOnlyAfterIdentityCheck(job, run, n - 1);
    } else {
      assert run[n - 1].pc.VerifyLink? && run[n - 1 + 1].pc.DisposeBackup?;
    }
  }

  // ------------------------------------------------------------------
  // What was verified on the way.

  lemma SeenStep(job: Job, s: State, c: Choice)
    requires Valid(job, s)
    ensures var s' := Step(job, s, c);
            && (s'.pc.HashKeeper? ==> s'.pc.i < |job.keepers| && SeenAsRecorded(job.keepers[s'.pc.i], s'.pc.seen))
            && (s'.pc.HashTarget? ==> SeenAsRecorded(job.target, s'.pc.seen))
  {
    if s.pc.InspectKeeper? {
      RefusedUnlessAsRecorded(job.keepers[s.pc.i], SnapshotOf(s.world, s.keeper));
    } else if s.pc.InspectTarget? {
      RefusedUnlessAsRecorded(job.target, SnapshotOf(s.world, s.target));
    } else {
      NothingSeen(job, s, c);
    }
  }

  lemma NothingSeen(job: Job, s: State, c: Choice)
    requires !s.pc.InspectKeeper? && !s.pc.InspectTarget?
    ensures !Step(job, s, c).pc.HashKeeper? && !Step(job, s, c).pc.HashTarget?
  {
  }

  /** The metadata taken of an opened file are those recorded. */
  lemma {:induction false} SeenIsRecorded(job: Job, run: seq<State>, n: nat)
    requires Behaviour(job, run) && n < |run|
    ensures run[n].pc.HashKeeper? ==>
              run[n].pc.i < |job.keepers| && SeenAsRecorded(job.keepers[run[n].pc.i], run[n].pc.seen)
    ensures run[n].pc.HashTarget? ==> SeenAsRecorded(job.target, run[n].pc.seen)
  {
    if n > 0 {
      SeenIsRecorded(job, run, n - 1);
      BehaviourStaysValid(job, run, n - 1);
      assert NextAt(job, run, n);
      if !(Interferes(run[n - 1].world, run[n].world) && run[n] == run[n - 1].(world := run[n].world)) {
        var c :| run[n] == Step(job, run[n - 1], c);
        SeenStep(job, run[n - 1], c);
      }
    }
  }

  /** A keeper has been taken and is still held. */
  predicate HoldsKeeper(pc: Pc) { !KeeperPhase(pc) && !pc.Returned? }

  lemma KeeperHashed(job: Job, s: State, c: Choice)
    requires Valid(job, s) && s.pc.HashKeeper? && s.pc.i < |job.keepers|
             && SeenAsRecorded(job.keepers[s.pc.i], s.pc.seen)
    requires HoldsKeeper(Step(job, s, c).pc)
    ensures Step(job, s, c) == s.(pc := CheckVolume) && s.keeper == job.keepers[s.pc.i].identity
    ensures Verifies(job, s.world, job.keepers[s.pc.i])
  {
    SeenExactly(s.world, job.keepers[s.pc.i], s.keeper);
  }

  lemma KeeperStaysHeld(job: Job, s: State, c: Choice)
    requires HoldsKeeper(Step(job, s, c).pc) && !s.pc.HashKeeper?
    ensures HoldsKeeper(s.pc) && Step(job, s, c).keeper == s.keeper
  {
  }

  /** Step j verified keeper i and took it. */
  ghost predicate TookKeeper(job: Job, run: seq<State>, j: nat, i: nat) {
    && j + 1 < |run| && i < |job.keepers| && run[j].pc.HashKeeper? && run[j].pc.i == i && run[j + 1].pc.CheckVolume?
    && run[j].keeper == job.keepers[i].identity && Verifies(job, run[j].world, job.keepers[i])
  }

  /** Whenever a keeper is held, some step found the disk to be as its record says
      and its bytes to carry the group's digest. */
  lemma {:induction false} KeeperWasVerified(job: Job, run: seq<State>, n: nat) returns (j: nat, i: nat)
    requires Behaviour(job, run) && n < |run| && HoldsKeeper(run[n].pc)
    ensures j < n && TookKeeper(job, run, j, i) && run[n].keeper == job.keepers[i].identity
  {
    var s, s' := run[n - 1], run[n];
    BehaviourStaysValid(job, run, n - 1);
    SeenIsRecorded(job, run, n - 1);
    assert NextAt(job, run, n);
    if Interferes(s.world, s'.world) && s' == s.(world := s'.world) {
      j, i := KeeperWasVerified(job, run, n - 1);
    } else {
      var c :| s' == Step(job, s, c);
      if s.pc.HashKeeper? {
        KeeperHashed(job, s, c);
        j, i := n - 1, s.pc.i;
      } else {
        KeeperStaysHeld(job, s, c);
        j, i := KeeperWasVerified(job, run, n - 1);
      }
    }
  }

  lemma TargetHashed(job: Job, s: State, c: Choice)
    requires Valid(job, s) && s.verified.None? && Step(job, s, c).verified.Some?
    requires s.pc.HashTarget? ==> SeenAsRecorded(job.target, s.pc.seen)
    ensures s.pc.HashTarget? && Step(job, s, c).pc == PrepareBackup && Step(job, s, c).target == s.target
    ensures s.target == job.target.identity && Verifies(job, s.world, job.target)
    ensures Step(job, s, c).verified == Some(Look(s.world, s.target).bytes)
  {
    if s.pc.HashTarget? { SeenExactly(s.world, job.target, s.target); }
  }

  /** Step j verified the candidate. */
  ghost predicate TookTarget(job: Job, run: seq<State>, j: nat) {
    && j + 1 < |run| && run[j].pc.HashTarget? && run[j + 1].pc.PrepareBackup?
    && run[j].target == job.target.identity && Verifies(job, run[j].world, job.target)
  }

  /** Nothing is renamed or disposed of before a step found the disk to be as the
      candidate's record says, with one name and no stream, and its bytes to carry
      the group's digest; those are the bytes that are kept. */
  lemma {:induction false} CandidateWasVerified(job: Job, run: seq<State>, n: nat) returns (j: nat)
    requires Behaviour(job, run) && n < |run| && run[n].verified.Some?
    ensures j < n && TookTarget(job, run, j) && run[n].verified == Some(Look(run[j].world, job.target.identity).bytes)
  {
    BehaviourStaysValid(job, run, n - 1);
    SeenIsRecorded(job, run, n - 1);
    assert NextAt(job, run, n);
    NextFacts(job, run[n - 1], run[n]);
    if run[n - 1].verified.Some? {
      j := CandidateWasVerified(job, run, n - 1);
    } else {
      var c :| run[n] == Step(job, run[n - 1], c);
      TargetHashed(job, run[n - 1], c);
      j := n - 1;
    }
  }

  /** No call before the rename aside changes a name or an object, so a run that
      fails to verify the candidate leaves the disk as others made it. */
  lemma OnlyReplacementTouchesDisk(job: Job, s: State, c: Choice)
    requires KeeperPhase(s.pc) || TargetPhase(s.pc)
    ensures Step(job, s, c).world.names == s.world.names
    ensures Step(job, s, c).world.objects == s.world.objects
  {
    if KeeperPhase(s.pc) {
      KeeperTouchesNothing(job, s, c);
    } else {
      TargetTouchesNothing(job, s, c);
    }
  }

  lemma KeeperTouchesNothing(job: Job, s: State, c: Choice)
    requires KeeperPhase(s.pc)
    ensures StepKeeper(job, s, c).world == s.world.(handles := StepKeeper(job, s, c).world.handles)
  {
  }

  lemma TargetTouchesNothing(job: Job, s: State, c: Choice)
    requires TargetPhase(s.pc)
    ensures StepTarget(job, s, c).world == s.world.(handles := StepTarget(job, s, c).world.handles)
  {
  }
}
