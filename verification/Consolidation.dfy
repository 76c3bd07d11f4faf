/**
 One candidate of a hardlink consolidation, as a machine whose steps are the
 individual system calls. Every call may fail, cancellation may be seen at
 every context check, and other processes may act between any two calls.
 */
module Consolidation {
  import opened Bytes
  import opened Records
  import opened FileSystem

  datatype Status = Consolidated | SkippedChanged | SkippedProtected | SkippedCrossVolume | Cancelled | Failed

  datatype Item = Item(path: Path, status: Status, backup: Option<Path>)

  /** The error classes the code branches on. */
  datatype Error = ContextDone | HardLinked | NamedStream | Reparse | Changed | NotExist | OtherError

  /** How the environment lets one call end. `Go` means the call does what the
      file system permits, which may still be a refusal. */
  datatype Choice = Go | Fail(error: Error)

  datatype Job = Job(sha: Content -> string, hash: string, keepers: seq<FileRecord>, target: FileRecord, backup: Path)

  datatype Pc =
    | OpenKeeper(i: nat)
    | InspectKeeper(i: nat)
    | HashKeeper(i: nat, seen: Snapshot)
    | CheckVolume
    | OpenTarget
    | InspectTarget
    | HashTarget(seen: Snapshot)
    | PrepareBackup
    | RenameAside
    | LinkKeeper
    | VerifyLink
    | DisposeBackup
    | Restore(cause: Status)
    | CloseTarget(item: Item)
    | CloseKeeper(item: Item)
    | Returned(item: Item)

  predicate KeeperPhase(pc: Pc) { pc.OpenKeeper? || pc.InspectKeeper? || pc.HashKeeper? }

  predicate TargetPhase(pc: Pc) {
    pc.CheckVolume? || pc.OpenTarget? || pc.InspectTarget? || pc.HashTarget? || pc.PrepareBackup?
  }

  predicate ReplacePhase(pc: Pc) {
    pc.RenameAside? || pc.LinkKeeper? || pc.VerifyLink? || pc.DisposeBackup? || pc.Restore?
  }

  datatype State = State(
    pc: Pc,
    world: World,
    keeper: Identity,
    keeperPath: Path,
    target: Identity,
    verified: Option<Content>,  // the candidate's bytes, once its hash has matched
    sawChanged: bool,
    sawProtected: bool)

  function Start(w: World): State {
    State(OpenKeeper(0), w, NO_IDENTITY, "", NO_IDENTITY, None, false, false)
  }

  function StatusOf(e: Error): Status {
    match e
    case ContextDone => Cancelled
    case HardLinked | NamedStream | Reparse => SkippedProtected
    case Changed | NotExist => SkippedChanged
    case OtherError => Failed
  }

  function KeeperStatus(s: State): Status {
    if s.sawChanged then SkippedChanged else if s.sawProtected then SkippedProtected else Failed
  }

  /** The checks an opened file must pass before it is hashed. */
  function Refusal(r: FileRecord, now: Snapshot): Option<Error> {
    if now.linkCount != 1 then Some(HardLinked)
    else if now.namedStreams != 0 then Some(NamedStream)
    else if Snapshot(r.size, r.modifiedAt, r.identity, r.linkCount, r.namedStreams) != now then Some(Changed)
    else None
  }

  /** The metadata are the record's, of a file with one name and no stream. */
  predicate SeenAsRecorded(r: FileRecord, now: Snapshot) {
    now == Snapshot(r.size, r.modifiedAt, r.identity, 1, 0) && r.linkCount == 1 && r.namedStreams == 0
  }

  /** Nothing else passes, and a file with other names or streams is protected. */
  lemma RefusedUnlessAsRecorded(r: FileRecord, now: Snapshot)
    ensures Refusal(r, now).None? <==> SeenAsRecorded(r, now)
    ensures Refusal(r, now).Some? ==> Refusal(r, now).value in {HardLinked, NamedStream, Changed}
    ensures Refusal(r, now).Some? ==>
              (Refusal(r, now).value != Changed <==> now.linkCount != 1 || now.namedStreams != 0)
  {
  }

  /** The disk is as the record says: its path is the only name of the very object
      that was scanned, with the size and time it had and without a stream. */
  predicate AsRecorded(w: World, r: FileRecord) {
    && Bound(w, r.path, r.identity) && Links(w, r.identity) == {r.path} && r.linkCount == 1 && r.namedStreams == 0
    && Look(w, r.identity) == Object(Look(w, r.identity).bytes, r.modifiedAt, 0)
    && |Look(w, r.identity).bytes| == r.size
  }

  /** What verification asks of a record: the disk is as it says, and the bytes
      carry the group's digest. */
  predicate Verifies(job: Job, w: World, r: FileRecord) {
    AsRecorded(w, r) && job.sha(Look(w, r.identity).bytes) == job.hash
  }

  lemma SeenExactly(w: World, r: FileRecord, id: Identity)
    requires Bound(w, r.path, id)
    ensures SeenAsRecorded(r, SnapshotOf(w, id)) <==> AsRecorded(w, r)
    ensures AsRecorded(w, r) ==> id == r.identity
  {
    if |Links(w, id)| == 1 { SoleLink(w, id, r.path); }
  }

  /** A candidate keeper did not verify: its handle is closed and the next one
      is tried, except that cancellation ends the search. */
  function NextKeeper(job: Job, s: State, i: nat, e: Error): State {
    var closed := s.(world := s.world.(handles := {}));
    if StatusOf(e) == Cancelled then closed.(pc := Returned(Item(job.target.path, Cancelled, None)))
    else closed.(pc := OpenKeeper(i + 1),
                 sawChanged := s.sawChanged || StatusOf(e) == SkippedChanged,
                 sawProtected := s.sawProtected || StatusOf(e) == SkippedProtected)
  }

  function StepKeeper(job: Job, s: State, c: Choice): State
    requires KeeperPhase(s.pc)
  {
    var w := s.world;
    if s.pc.i >= |job.keepers| then
      s.(pc := Returned(Item(job.target.path, KeeperStatus(s), None)))
    else
      var r := job.keepers[s.pc.i];
      if c.Fail? then NextKeeper(job, s, s.pc.i, c.error)
      else match s.pc
        case OpenKeeper(i) =>
          if r.path !in w.names then NextKeeper(job, s, i, NotExist)
          else if !CanOpen(w, ReadHandle(w.names[r.path])) then NextKeeper(job, s, i, OtherError)
          else s.(pc := InspectKeeper(i), world := Open(w, ReadHandle(w.names[r.path])),
                  keeper := w.names[r.path], keeperPath := r.path)
        case InspectKeeper(i) =>
          var now := SnapshotOf(w, s.keeper);
          if Refusal(r, now).Some? then NextKeeper(job, s, i, Refusal(r, now).value)
          else s.(pc := HashKeeper(i, now))
        case HashKeeper(i, seen) =>
          // stability is proved again, through the handle and through the path
          if SnapshotOf(w, s.keeper) != seen || !Bound(w, r.path, s.keeper) then NextKeeper(job, s, i, Changed)
          else if job.sha(Look(w, s.keeper).bytes) != job.hash then NextKeeper(job, s, i, Changed)
          else s.(pc := CheckVolume)
  }

  /** The candidate did not verify: its handle is closed at once. */
  function TargetRefused(job: Job, s: State, e: Error): State {
    s.(pc := CloseKeeper(Item(job.target.path, StatusOf(e), None)),
       world := s.world.(handles := {ReadHandle(s.keeper)}))
  }

  function StepTarget(job: Job, s: State, c: Choice): State
    requires TargetPhase(s.pc)
  {
    var w := s.world;
    var r := job.target;
    match s.pc
    case CheckVolume =>
      if s.keeper.volume != r.identity.volume
      then s.(pc := CloseKeeper(Item(r.path, SkippedCrossVolume, None)))
      else if c.Fail? then s.(pc := CloseKeeper(Item(r.path, Cancelled, None)))
      else s.(pc := OpenTarget)
    case OpenTarget =>
      if c.Fail? then TargetRefused(job, s, c.error)
      else if r.path !in w.names then TargetRefused(job, s, NotExist)
      else if !CanOpen(w, DeleteHandle(w.names[r.path])) then TargetRefused(job, s, OtherError)
      else s.(pc := InspectTarget, world := Open(w, DeleteHandle(w.names[r.path])), target := w.names[r.path])
    case InspectTarget =>
      var now := SnapshotOf(w, s.target);
      if c.Fail? then TargetRefused(job, s, c.error)
      else if Refusal(r, now).Some? then TargetRefused(job, s, Refusal(r, now).value)
      else s.(pc := HashTarget(now))
    case HashTarget(seen) =>
      if c.Fail? then TargetRefused(job, s, c.error)
      else if SnapshotOf(w, s.target) != seen then TargetRefused(job, s, Changed)
      else if job.sha(Look(w, s.target).bytes) != job.hash then TargetRefused(job, s, Changed)
      else s.(pc := PrepareBackup, verified := Some(Look(w, s.target).bytes))
    case PrepareBackup =>
      if c.Fail? then s.(pc := CloseTarget(Item(r.path, if c.error == ContextDone then Cancelled else Failed, None)))
      else s.(pc := RenameAside)
  }

  function StepReplace(job: Job, s: State, c: Choice): State
    requires ReplacePhase(s.pc)
  {
    var w := s.world;
    var path := job.target.path;
    match s.pc
    case RenameAside =>
      if c.Fail? || path !in w.names || job.backup in w.names
      then s.(pc := CloseTarget(Item(path, Failed, None)))
      else s.(pc := LinkKeeper, world := Rename(w, path, job.backup))
    case LinkKeeper =>
      if c == Fail(ContextDone) then s.(pc := Restore(Cancelled))
      else if c.Fail? || path in w.names || s.keeperPath !in w.names then s.(pc := Restore(Failed))
      else s.(pc := VerifyLink, world := Link(w, s.keeperPath, path))
    case VerifyLink =>
      if c.Fail? || !Bound(w, path, s.keeper)
      then s.(pc := CloseTarget(Item(path, Failed, Some(job.backup))))
      else s.(pc := DisposeBackup)
    case DisposeBackup =>
      if c.Fail? then s.(pc := CloseTarget(Item(path, Failed, Some(job.backup))))
      else s.(pc := CloseTarget(Item(path, Consolidated, None)), world := MarkDelete(w, s.target))
    case Restore(cause) =>
      if c.Fail? || path in w.names || job.backup !in w.names
      then s.(pc := CloseTarget(Item(path, Failed, Some(job.backup))))
      else s.(pc := CloseTarget(Item(path, cause, None)), world := Rename(w, job.backup, path))
  }

  function Step(job: Job, s: State, c: Choice): State {
    match s.pc
    case OpenKeeper(_) | InspectKeeper(_) | HashKeeper(_, _) => StepKeeper(job, s, c)
    case CheckVolume | OpenTarget | InspectTarget | HashTarget(_) | PrepareBackup => StepTarget(job, s, c)
    case RenameAside | LinkKeeper | VerifyLink | DisposeBackup | Restore(_) => StepReplace(job, s, c)
    case CloseTarget(item) =>
      s.(pc := CloseKeeper(item), world := Close(s.world, DeleteHandle(s.target), job.backup))
    case CloseKeeper(item) =>
      s.(pc := Returned(item), world := Close(s.world, ReadHandle(s.keeper), s.keeperPath))
    case Returned(_) => s
  }

  /** A run ends: every call of ours lowers this rank. */
  function Rank(job: Job, pc: Pc): nat {
    match pc
    case OpenKeeper(i) => 14 + 3 * (if i < |job.keepers| then |job.keepers| - i else 0)
    case InspectKeeper(i) => 13 + 3 * (if i < |job.keepers| then |job.keepers| - i else 0)
    case HashKeeper(i, _) => 12 + 3 * (if i < |job.keepers| then |job.keepers| - i else 0)
    case CheckVolume => 12
    case OpenTarget => 11
    case InspectTarget => 10
    case HashTarget(_) => 9
    case PrepareBackup => 8
    case RenameAside => 7
    case LinkKeeper => 6
    case VerifyLink => 5
    case DisposeBackup => 4
    case Restore(_) => 3
    case CloseTarget(_) => 2
    case CloseKeeper(_) => 1
    case Returned(_) => 0
  }

  lemma StepLowersRank(job: Job, s: State, c: Choice)
    requires !s.pc.Returned?
    ensures Rank(job, Step(job, s, c).pc) < Rank(job, s.pc)
  {
    if KeeperPhase(s.pc) { KeeperLowersRank(job, s, c); }
    else if TargetPhase(s.pc) { TargetLowersRank(job, s, c); }
    else if ReplacePhase(s.pc) { ReplaceLowersRank(job, s, c); }
  }

  lemma KeeperLowersRank(job: Job, s: State, c: Choice)
    requires KeeperPhase(s.pc)
    ensures Rank(job, StepKeeper(job, s, c).pc) < Rank(job, s.pc)
  {
  }

  lemma TargetLowersRank(job: Job, s: State, c: Choice)
    requires TargetPhase(s.pc)
    ensures Rank(job, StepTarget(job, s, c).pc) < Rank(job, s.pc)
  {
  }

  lemma ReplaceLowersRank(job: Job, s: State, c: Choice)
    requires ReplacePhase(s.pc)
    ensures Rank(job, StepReplace(job, s, c).pc) < Rank(job, s.pc)
  {
  }
}
