/**
 One candidate with arbitrary failures and cancellations but no outside writers:
 the final disk as a function of the reported item.
 */
module ConsolidationItem {
  import opened Bytes
  import opened Records
  import opened FileSystem
  import opened Consolidation

  /** Runs the machine from `s` to its return, the t-th call ending as `choices(t)` says. */
  function Finish(job: Job, s: State, choices: nat -> Choice, t: nat): (end: State)
    ensures end.pc.Returned?
    decreases Rank(job, s.pc)
  {
    if s.pc.Returned? then s
    else
      StepLowersRank(job, s, choices(t));
      Finish(job, Step(job, s, choices(t)), choices, t + 1)
  }

  ghost predicate Idle(w: World) {
    WorldOk(w) && w.handles == {} && w.deletePending == {}
  }

  /** A keeper record that verified in world `w`. */
  ghost predicate VerifiedKeeper(job: Job, w: World, k: FileRecord) {
    && k in job.keepers && Bound(w, k.path, k.identity) && |Links(w, k.identity)| == 1
    && job.sha(Look(w, k.identity).bytes) == job.hash && k.identity != job.target.identity
  }

  ghost predicate VerifiedTarget(job: Job, w: World) {
    && Links(w, job.target.identity) == {job.target.path}
    && job.sha(Look(w, job.target.identity).bytes) == job.hash
  }

  function Moved(job: Job, w: World): map<Path, Identity> {
    (w.names - {job.target.path})[job.backup := job.target.identity]
  }

  /** The disk, compared with the disk the run started from. */
  datatype Progress = Untouched | Aside | Linked

  ghost predicate DiskIs(job: Job, w0: World, w: World, k: FileRecord, at: Progress) {
    && w.objects == w0.objects
    && match at
       case Untouched => w.names == w0.names
       case Aside => VerifiedTarget(job, w0) && job.backup !in w0.names && w.names == Moved(job, w0)
       case Linked =>
         && VerifiedTarget(job, w0) && job.backup !in w0.names
         && w.names == Moved(job, w0)[job.target.path := k.identity]
  }

  /** The final disk of one item. */
  ghost predicate Settled(job: Job, w0: World, w: World, k: FileRecord, item: Item) {
    && item.path == job.target.path
    && if item.status == Consolidated then
         && item.backup == None && VerifiedKeeper(job, w0, k) && VerifiedTarget(job, w0)
         && w.names == w0.names[job.target.path := k.identity]
         && w.objects == w0.objects - {job.target.identity}
       else if item.backup == None then DiskIs(job, w0, w, k, Untouched)
       else
         && item.backup == Some(job.backup)
         && (DiskIs(job, w0, w, k, Aside) || (VerifiedKeeper(job, w0, k) && DiskIs(job, w0, w, k, Linked)))
  }

  /** How far the machine is at each program point, when nobody interferes. */
  ghost predicate Tracks(job: Job, w0: World, s: State, k: FileRecord) {
    && s.world.handles == HandlesHeld(s)
    && (s.world.deletePending == if s.pc.CloseTarget? && s.pc.item.status == Consolidated then {s.target} else {})
    && match s.pc
       case OpenKeeper(_) => DiskIs(job, w0, s.world, k, Untouched)
       case InspectKeeper(i) =>
         && DiskIs(job, w0, s.world, k, Untouched) && i < |job.keepers|
         && Bound(w0, job.keepers[i].path, s.keeper) && s.keeperPath == job.keepers[i].path
       case HashKeeper(i, seen) =>
         && DiskIs(job, w0, s.world, k, Untouched) && i < |job.keepers|
         && Bound(w0, job.keepers[i].path, s.keeper) && s.keeper == job.keepers[i].identity
         && |Links(w0, s.keeper)| == 1 && s.keeperPath == job.keepers[i].path
       case CheckVolume | OpenTarget =>
         DiskIs(job, w0, s.world, k, Untouched) && KeeperTracks(job, w0, s, k)
       case InspectTarget =>
         && DiskIs(job, w0, s.world, k, Untouched) && KeeperTracks(job, w0, s, k)
         && Bound(w0, job.target.path, s.target) && s.target != s.keeper
       case HashTarget(_) =>
         && DiskIs(job, w0, s.world, k, Untouched) && KeeperTracks(job, w0, s, k)
         && s.target == job.target.identity && s.target != s.keeper && Links(w0, s.target) == {job.target.path}
       case PrepareBackup | RenameAside =>
         DiskIs(job, w0, s.world, k, Untouched) && PairTracks(job, w0, s, k)
       case LinkKeeper => DiskIs(job, w0, s.world, k, Aside) && PairTracks(job, w0, s, k)
       case Restore(cause) =>
         DiskIs(job, w0, s.world, k, Aside) && PairTracks(job, w0, s, k) && cause != Consolidated
       case VerifyLink | DisposeBackup => DiskIs(job, w0, s.world, k, Linked) && PairTracks(job, w0, s, k)
       case CloseTarget(item) =>
         && PairTracks(job, w0, s, k) && item.path == job.target.path
         && (item.status == Consolidated ==> item.backup == None && DiskIs(job, w0, s.world, k, Linked))
         && (item.status != Consolidated ==> Settled(job, w0, s.world, k, item))
       case CloseKeeper(item) => KeeperTracks(job, w0, s, k) && Settled(job, w0, s.world, k, item)
       case Returned(item) => Settled(job, w0, s.world, k, item)
  }

  function HandlesHeld(s: State): set<Handle> {
    match s.pc
    case OpenKeeper(_) | Returned(_) => {}
    case InspectKeeper(_) | HashKeeper(_, _) | CheckVolume | OpenTarget | CloseKeeper(_) => {ReadHandle(s.keeper)}
    case _ => {ReadHandle(s.keeper), DeleteHandle(s.target)}
  }

  ghost predicate KeeperTracks(job: Job, w0: World, s: State, k: FileRecord) {
    && k in job.keepers && s.keeper == k.identity && s.keeperPath == k.path
    && Bound(w0, k.path, k.identity) && |Links(w0, k.identity)| == 1
    && job.sha(Look(w0, k.identity).bytes) == job.hash
  }

  ghost predicate PairTracks(job: Job, w0: World, s: State, k: FileRecord) {
    && KeeperTracks(job, w0, s, k) && VerifiedKeeper(job, w0, k) && VerifiedTarget(job, w0)
    && s.target == job.target.identity
  }

  lemma OpenKeeperTracks(job: Job, w0: World, s: State, c: Choice, k: FileRecord) returns (k': FileRecord)
    requires WorldOk(w0) && s.pc.OpenKeeper? && Tracks(job, w0, s, k)
    ensures Tracks(job, w0, StepKeeper(job, s, c), k')
  {
    k' := k;
  }

  lemma InspectKeeperTracks(job: Job, w0: World, s: State, c: Choice, k: FileRecord) returns (k': FileRecord)
    requires WorldOk(w0) && s.pc.InspectKeeper? && Tracks(job, w0, s, k)
    ensures Tracks(job, w0, StepKeeper(job, s, c), k')
  {
    k' := k;
    assert Links(s.world, s.keeper) == Links(w0, s.keeper);
  }

  lemma HashKeeperTracks(job: Job, w0: World, s: State, c: Choice, k: FileRecord) returns (k': FileRecord)
    requires WorldOk(w0) && s.pc.HashKeeper? && Tracks(job, w0, s, k)
    ensures Tracks(job, w0, StepKeeper(job, s, c), k')
  {
    k' := job.keepers[s.pc.i];
  }

  lemma CheckVolumeTracks(job: Job, w0: World, s: State, c: Choice, k: FileRecord)
    requires WorldOk(w0) && s.pc.CheckVolume? && Tracks(job, w0, s, k)
    ensures Tracks(job, w0, StepTarget(job, s, c), k)
  {
  }

  lemma OpenedTracks(job: Job, w0: World, s: State, file: Identity, k: FileRecord)
    requires WorldOk(w0) && s.pc.OpenTarget? && Tracks(job, w0, s, k)
    requires Bound(s.world, job.target.path, file) && CanOpen(s.world, DeleteHandle(file))
    ensures Tracks(job, w0, s.(pc := InspectTarget, world := Open(s.world, DeleteHandle(file)), target := file), k)
  {
  }

  lemma OpenTargetTracks(job: Job, w0: World, s: State, c: Choice, k: FileRecord)
    requires WorldOk(w0) && s.pc.OpenTarget? && Tracks(job, w0, s, k)
    ensures Tracks(job, w0, StepTarget(job, s, c), k)
  {
    if StepTarget(job, s, c).pc.InspectTarget? {
      OpenedTracks(job, w0, s, s.world.names[job.target.path], k);
    } else {
      RefusedTracks(job, w0, s,
                    if c.Fail? then c.error else if job.target.path !in s.world.names then NotExist else OtherError, k);
    }
  }

  lemma RefusedTracks(job: Job, w0: World, s: State, e: Error, k: FileRecord)
    requires WorldOk(w0) && (s.pc.OpenTarget? || s.pc.InspectTarget? || s.pc.HashTarget?) && Tracks(job, w0, s, k)
    ensures Tracks(job, w0, TargetRefused(job, s, e), k)
  {
  }

  lemma InspectedTracks(job: Job, w0: World, s: State, k: FileRecord)
    requires WorldOk(w0) && s.pc.InspectTarget? && Tracks(job, w0, s, k)
    requires |Links(s.world, s.target)| == 1 && s.target == job.target.identity
    ensures Tracks(job, w0, s.(pc := HashTarget(SnapshotOf(s.world, s.target))), k)
  {
    assert Links(s.world, s.target) == Links(w0, s.target);
    SoleLink(w0, s.target, job.target.path);
  }

  lemma InspectTargetTracks(job: Job, w0: World, s: State, c: Choice, k: FileRecord)
    requires WorldOk(w0) && s.pc.InspectTarget? && Tracks(job, w0, s, k)
    ensures Tracks(job, w0, StepTarget(job, s, c), k)
  {
    var refusal := Refusal(job.target, SnapshotOf(s.world, s.target));
    if c.Fail? {
      RefusedTracks(job, w0, s, c.error, k);
    } else if refusal.Some? {
      RefusedTracks(job, w0, s, refusal.value, k);
    } else {
      InspectedTracks(job, w0, s, k);
    }
  }

  lemma HashTargetTracks(job: Job, w0: World, s: State, c: Choice, k: FileRecord)
    requires WorldOk(w0) && s.pc.HashTarget? && Tracks(job, w0, s, k)
    ensures Tracks(job, w0, StepTarget(job, s, c), k)
  {
  }

  lemma PrepareBackupTracks(job: Job, w0: World, s: State, c: Choice, k: FileRecord)
    requires WorldOk(w0) && s.pc.PrepareBackup? && Tracks(job, w0, s, k)
    ensures Tracks(job, w0, StepTarget(job, s, c), k)
  {
  }

  lemma RenameAsideTracks(job: Job, w0: World, s: State, c: Choice, k: FileRecord)
    requires WorldOk(w0) && s.pc.RenameAside? && Tracks(job, w0, s, k)
    ensures Tracks(job, w0, StepReplace(job, s, c), k)
  {
    assert job.target.path in Links(w0, job.target.identity);
  }

  lemma LinkKeeperTracks(job: Job, w0: World, s: State, c: Choice, k: FileRecord)
    requires WorldOk(w0) && s.pc.LinkKeeper? && Tracks(job, w0, s, k)
    ensures Tracks(job, w0, StepReplace(job, s, c), k)
  {
    assert job.target.path in Links(w0, job.target.identity);
  }

  lemma VerifyLinkTracks(job: Job, w0: World, s: State, c: Choice, k: FileRecord)
    requires WorldOk(w0) && s.pc.VerifyLink? && Tracks(job, w0, s, k)
    ensures Tracks(job, w0, StepReplace(job, s, c), k)
  {
    assert job.target.path in Links(w0, job.target.identity);
  }

  lemma DisposeBackupTracks(job: Job, w0: World, s: State, c: Choice, k: FileRecord)
    requires WorldOk(w0) && s.pc.DisposeBackup? && Tracks(job, w0, s, k)
    ensures Tracks(job, w0, StepReplace(job, s, c), k)
  {
    assert job.target.path in Links(w0, job.target.identity);
  }

  lemma RestoreTracks(job: Job, w0: World, s: State, c: Choice, k: FileRecord)
    requires WorldOk(w0) && s.pc.Restore? && Tracks(job, w0, s, k)
    ensures Tracks(job, w0, StepReplace(job, s, c), k)
  {
    assert job.target.path in Links(w0, job.target.identity);
  }

  /** Closing the candidate's handle after disposal removes its only name, the
      backup, and with it the object. */
  lemma DisposedTargetVanishes(job: Job, w0: World, s: State, k: FileRecord)
    requires WorldOk(w0) && s.pc.CloseTarget? && s.pc.item.status == Consolidated && Tracks(job, w0, s, k)
    ensures Tracks(job, w0, Step(job, s, Go), k)
  {
    var w := s.world;
    assert job.target.path in Links(w0, job.target.identity);
    assert w.names - {job.backup} == w0.names[job.target.path := k.identity];
    var unlinked := w.(handles := w.handles - {DeleteHandle(s.target)}, deletePending := {},
                       names := w.names - {job.backup});
    assert Links(unlinked, job.target.identity) <= Links(w0, job.target.identity) - {job.target.path};
    assert Links(unlinked, job.target.identity) == {};
  }

  lemma CloseTracks(job: Job, w0: World, s: State, c: Choice, k: FileRecord)
    requires WorldOk(w0) && (s.pc.CloseTarget? || s.pc.CloseKeeper?) && Tracks(job, w0, s, k)
    requires s.pc.CloseTarget? ==> s.pc.item.status != Consolidated
    ensures Tracks(job, w0, Step(job, s, c), k)
  {
  }

  lemma KeeperStepTracks(job: Job, w0: World, s: State, c: Choice, k: FileRecord) returns (k': FileRecord)
    requires WorldOk(w0) && KeeperPhase(s.pc) && Tracks(job, w0, s, k)
    ensures Tracks(job, w0, StepKeeper(job, s, c), k')
  {
    if s.pc.OpenKeeper? { k' := OpenKeeperTracks(job, w0, s, c, k); }
    else if s.pc.InspectKeeper? { k' := InspectKeeperTracks(job, w0, s, c, k); }
    else { k' := HashKeeperTracks(job, w0, s, c, k); }
  }

  lemma TargetStepTracks(job: Job, w0: World, s: State, c: Choice, k: FileRecord)
    requires WorldOk(w0) && TargetPhase(s.pc) && Tracks(job, w0, s, k)
    ensures Tracks(job, w0, StepTarget(job, s, c), k)
  {
    if s.pc.CheckVolume? { CheckVolumeTracks(job, w0, s, c, k); }
    else if s.pc.OpenTarget? { OpenTargetTracks(job, w0, s, c, k); }
    else if s.pc.InspectTarget? { InspectTargetTracks(job, w0, s, c, k); }
    else if s.pc.HashTarget? { HashTargetTracks(job, w0, s, c, k); }
    else { PrepareBackupTracks(job, w0, s, c, k); }
  }

  lemma ReplaceStepTracks(job: Job, w0: World, s: State, c: Choice, k: FileRecord)
    requires WorldOk(w0) && ReplacePhase(s.pc) && Tracks(job, w0, s, k)
    ensures Tracks(job, w0, StepReplace(job, s, c), k)
  {
    if s.pc.RenameAside? { RenameAsideTracks(job, w0, s, c, k); }
    else if s.pc.LinkKeeper? { LinkKeeperTracks(job, w0, s, c, k); }
    else if s.pc.VerifyLink? { VerifyLinkTracks(job, w0, s, c, k); }
    else if s.pc.DisposeBackup? { DisposeBackupTracks(job, w0, s, c, k); }
    else { RestoreTracks(job, w0, s, c, k); }
  }

  lemma CloseStepTracks(job: Job, w0: World, s: State, c: Choice, k: FileRecord)
    requires WorldOk(w0) && (s.pc.CloseTarget? || s.pc.CloseKeeper?) && Tracks(job, w0, s, k)
    ensures Tracks(job, w0, Step(job, s, c), k)
  {
    if s.pc.CloseTarget? && s.pc.item.status == Consolidated {
      DisposedTargetVanishes(job, w0, s, k);
    } else {
      CloseTracks(job, w0, s, c, k);
    }
  }

  /** Each call leaves the disk as the next program point has it. */
  lemma StepTracks(job: Job, w0: World, s: State, c: Choice, k: FileRecord) returns (k': FileRecord)
    requires WorldOk(w0) && !s.pc.Returned? && Tracks(job, w0, s, k)
    ensures Tracks(job, w0, Step(job, s, c), k')
  {
    k' := k;
    if KeeperPhase(s.pc) { k' := KeeperStepTracks(job, w0, s, c, k); }
    else if TargetPhase(s.pc) { TargetStepTracks(job, w0, s, c, k); }
    else if ReplacePhase(s.pc) { ReplaceStepTracks(job, w0, s, c, k); }
    else { CloseStepTracks(job, w0, s, c, k); }
  }

  lemma {:induction false} RunSettles(job: Job, w0: World, s: State, choices: nat -> Choice, t: nat, k: FileRecord)
    returns (k': FileRecord)
    requires WorldOk(w0) && Tracks(job, w0, s, k)
    ensures var end := Finish(job, s, choices, t);
            Tracks(job, w0, end, k') && end.pc.Returned?
    decreases Rank(job, s.pc)
  {
    k' := k;
    if !s.pc.Returned? {
      var c := choices(t);
      StepLowersRank(job, s, c);
      k' := StepTracks(job, w0, s, c, k);
      k' := RunSettles(job, w0, Step(job, s, c), choices, t + 1, k');
    }
  }
}
