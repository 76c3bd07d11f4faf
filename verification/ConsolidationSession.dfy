/**
 The consolidation of one candidate as the program text runs it: structured
 code acting on the mutable disk, other processes acting before every call.
 Its ghost history is a behaviour of the machine, so everything proved of the
 machine's behaviours holds at every point of this code.
 */
module ConsolidationSession {
  import opened Bytes
  import opened Records
  import opened FileSystem
  import opened Consolidation
  import opened ConsolidationSafety

  class Session {
    const job: Job
    const choices: nat -> Choice
    const adversary: (nat, World) -> World
    var clock: nat
    var world: World
    ghost var run: seq<State>

    ghost predicate Valid()
      reads this
    {
      && (forall n, w :: WorldOk(w) ==> Interferes(w, adversary(n, w)))
      && Behaviour(job, run)
      && run[|run| - 1].world == world
    }

    ghost function Now(): State
      reads this
      requires run != []
    {
      run[|run| - 1]
    }

    constructor (job: Job, choices: nat -> Choice, adversary: (nat, World) -> World, world: World)
      requires forall n, w :: WorldOk(w) ==> Interferes(w, adversary(n, w))
      requires WorldOk(world) && world.handles == {} && world.deletePending == {}
      ensures Valid() && Now() == Start(world) && this.job == job
    {
      this.job, this.choices, this.adversary, this.clock, this.world := job, choices, adversary, 0, world;
      run := [Start(world)];
    }

    /** The moment before a call: others act first, then the call's end is known. */
    method Await() returns (c: Choice)
      requires Valid()
      modifies this
      ensures Valid() && old(run) <= run && Now() == old(Now()).(world := world)
      ensures Interferes(old(world), world)
    {
      BehaviourStaysValid(job, run, |run| - 1);
      c, world, clock := choices(clock), adversary(clock, world), clock + 1;
      BehaviourExtends(job, run, Now().(world := world));
      run := run + [Now().(world := world)];
    }

    /** Enters the call just made into the history. */
    ghost method Record(c: Choice)
      requires Behaviour(job, run) && Step(job, Now(), c).world == world
      requires forall n, w :: WorldOk(w) ==> Interferes(w, adversary(n, w))
      modifies this`run
      ensures Valid() && run == old(run) + [Step(job, old(Now()), c)]
    {
      BehaviourExtends(job, run, Step(job, Now(), c));
      run := run + [Step(job, Now(), c)];
    }

    /** CreateFile on a keeper candidate, read access, no write or delete sharing. */
    method OpenKeeperFile(i: nat) returns (err: Option<Error>, file: Identity)
      requires Valid() && Now().pc == OpenKeeper(i) && i < |job.keepers| && world.handles == {}
      modifies this
      ensures Valid() && old(run) <= run
      ensures err.Some? ==> Now() == NextKeeper(job, old(Now()).(world := world), i, err.value) && world.handles == {}
      ensures err.None? ==> world.handles == {ReadHandle(file)}
      ensures err.None? ==> Now() == old(Now()).(pc := InspectKeeper(i), world := world, keeper := file,
                                                 keeperPath := job.keepers[i].path)
    {
      var c := Await();
      err, file := None, NO_IDENTITY;
      if c.Fail? {
        err := Some(c.error);
      } else if job.keepers[i].path !in world.names {
        err := Some(NotExist);
      } else {
        file := world.names[job.keepers[i].path];
        world := Open(world, ReadHandle(file));
      }
      Record(c);
    }

    /** Reads the opened keeper's metadata and closes it again if it is refused. */
    method InspectKeeperFile(i: nat, file: Identity) returns (err: Option<Error>, seen: Snapshot)
      requires Valid() && Now().pc == InspectKeeper(i) && i < |job.keepers| && Now().keeper == file
      modifies this
      ensures Valid() && old(run) <= run
      ensures err.Some? ==> Now() == NextKeeper(job, old(Now()).(world := world), i, err.value) && world.handles == {}
      ensures err.None? ==> world.handles == old(world.handles) && SeenAsRecorded(job.keepers[i], seen)
      ensures err.None? ==> Now() == old(Now()).(pc := HashKeeper(i, seen), world := world)
    {
      var c := Await();
      seen := SnapshotOf(world, file);
      err := if c.Fail? then Some(c.error) else Refusal(job.keepers[i], seen);
      RefusedUnlessAsRecorded(job.keepers[i], seen);
      if err.Some? { world := world.(handles := {}); }
      Record(c);
    }

    /** Hashes the keeper through its handle and proves that it stayed the same. */
    method HashKeeperFile(i: nat, file: Identity, seen: Snapshot) returns (err: Option<Error>)
      requires Valid() && Now().pc == HashKeeper(i, seen) && i < |job.keepers| && Now().keeper == file
      requires SeenAsRecorded(job.keepers[i], seen)
      modifies this
      ensures Valid() && old(run) <= run
      ensures err.Some? ==> Now() == NextKeeper(job, old(Now()).(world := world), i, err.value) && world.handles == {}
      ensures err.None? ==>
                world.handles == old(world.handles) && Now() == old(Now()).(pc := CheckVolume, world := world)
      ensures err.None? ==> file == job.keepers[i].identity && Verifies(job, world, job.keepers[i])
    {
      var c := Await();
      err := None;
      if c.Fail? {
        err := Some(c.error);
      } else if SnapshotOf(world, file) != seen || !Bound(world, job.keepers[i].path, file)
                || job.sha(Look(world, file).bytes) != job.hash {
        err := Some(Changed);
      } else {
        SeenExactly(world, job.keepers[i], file);
      }
      if err.Some? { world := world.(handles := {}); }
      Record(c);
    }

    /** CreateFile on the candidate with delete access, no write or delete sharing. */
    method OpenTargetFile() returns (err: Option<Error>, file: Identity)
      requires Valid() && Now().pc == OpenTarget && world.handles == {ReadHandle(Now().keeper)}
      modifies this
      ensures Valid() && old(run) <= run
      ensures err.Some? ==> Now() == TargetRefused(job, old(Now()).(world := world), err.value)
      ensures err.None? ==> world.handles == {ReadHandle(Now().keeper), DeleteHandle(file)}
      ensures err.None? ==> Now() == old(Now()).(pc := InspectTarget, world := world, target := file)
    {
      var c := Await();
      err, file := None, NO_IDENTITY;
      if c.Fail? {
        err := Some(c.error);
      } else if job.target.path !in world.names {
        err := Some(NotExist);
      } else if !CanOpen(world, DeleteHandle(world.names[job.target.path])) {
        err := Some(OtherError);
      } else {
        file := world.names[job.target.path];
        world := Open(world, DeleteHandle(file));
      }
      Record(c);
    }

    /** Reads the opened candidate's metadata and closes it again if it is refused. */
    method InspectTargetFile(keeper: Identity, file: Identity) returns (err: Option<Error>, seen: Snapshot)
      requires Valid() && Now().pc == InspectTarget && Now().keeper == keeper && Now().target == file
      modifies this
      ensures Valid() && old(run) <= run
      ensures err.Some? ==> Now() == TargetRefused(job, old(Now()).(world := world), err.value)
      ensures err.None? ==>
                world.handles == old(world.handles) && Now() == old(Now()).(pc := HashTarget(seen), world := world)
      ensures err.None? ==> SeenAsRecorded(job.target, seen)
    {
      var c := Await();
      seen := SnapshotOf(world, file);
      err := if c.Fail? then Some(c.error) else Refusal(job.target, seen);
      RefusedUnlessAsRecorded(job.target, seen);
      if err.Some? { world := world.(handles := {ReadHandle(keeper)}); }
      Record(c);
    }

    /** Hashes the candidate through its handle and proves that it stayed the same. */
    method HashTargetFile(keeper: Identity, file: Identity, seen: Snapshot) returns (err: Option<Error>)
      requires Valid() && Now().pc == HashTarget(seen) && Now().keeper == keeper && Now().target == file
      requires SeenAsRecorded(job.target, seen)
      modifies this
      ensures Valid() && old(run) <= run
      ensures err.Some? ==> Now() == TargetRefused(job, old(Now()).(world := world), err.value)
      ensures err.None? ==> world.handles == old(world.handles)
      ensures err.None? ==> Now() == old(Now()).(pc := PrepareBackup, world := world, verified := Now().verified)
      ensures err.None? ==> Verifies(job, world, job.target)
    {
      var c := Await();
      BehaviourStaysValid(job, run, |run| - 1);
      err := None;
      if c.Fail? {
        err := Some(c.error);
      } else if SnapshotOf(world, file) != seen || job.sha(Look(world, file).bytes) != job.hash {
        err := Some(Changed);
      } else {
        SeenExactly(world, job.target, file);
      }
      if err.Some? { world := world.(handles := {ReadHandle(keeper)}); }
      Record(c);
    }

    /** Renames the candidate to the backup name through its handle, never overwriting. */
    method RenameTargetAside() returns (ok: bool)
      requires Valid() && Now().pc == RenameAside
      modifies this
      ensures Valid() && old(run) <= run
      ensures world.handles == old(world.handles)
      ensures Now() == old(Now()).(pc := if ok then LinkKeeper
                                         else CloseTarget(Item(job.target.path, Failed, None)), world := world)
    {
      var c := Await();
      ok := c.Go? && job.target.path in world.names && job.backup !in world.names;
      if ok { world := Rename(world, job.target.path, job.backup); }
      Record(c);
    }

    /** Checks for cancellation, then links the keeper into the vacated path. */
    method LinkIntoPath(keeperPath: Path) returns (failure: Option<Status>)
      requires Valid() && Now().pc == LinkKeeper && Now().keeperPath == keeperPath
      modifies this
      ensures Valid() && old(run) <= run
      ensures world.handles == old(world.handles) && failure != Some(Consolidated)
      ensures Now() == old(Now()).(pc := if failure.None? then VerifyLink else Restore(failure.value), world := world)
    {
      var c := Await();
      failure := None;
      if c == Fail(ContextDone) {
        failure := Some(Cancelled);
      } else if c.Fail? || job.target.path in world.names || keeperPath !in world.names {
        failure := Some(Failed);
      } else {
        world := Link(world, keeperPath, job.target.path);
      }
      Record(c);
    }

    /** Opens the original path afresh and requires the keeper's identity. */
    method VerifyPathHasIdentity(keeper: Identity) returns (ok: bool)
      requires Valid() && Now().pc == VerifyLink && Now().keeper == keeper
      modifies this
      ensures Valid() && old(run) <= run
      ensures world.handles == old(world.handles)
      ensures Now() == old(Now()).(pc := if ok then DisposeBackup
                                         else CloseTarget(Item(job.target.path, Failed, Some(job.backup))),
                                   world := world)
    {
      var c := Await();
      ok := c.Go? && Bound(world, job.target.path, keeper);
      Record(c);
    }

    /** Marks the candidate delete-on-close through its handle. */
    method DisposeByHandle(target: Identity) returns (ok: bool)
      requires Valid() && Now().pc == DisposeBackup && Now().target == target
      modifies this
      ensures Valid() && old(run) <= run
      ensures world.handles == old(world.handles)
      ensures Now() == old(Now()).(pc := CloseTarget(Item(job.target.path, if ok then Consolidated else Failed,
                                                          if ok then None else Some(job.backup))), world := world)
    {
      var c := Await();
      ok := c.Go?;
      if ok { world := MarkDelete(world, target); }
      Record(c);
    }

    /** Undoes the rename aside; if even that fails the backup is reported. */
    method RestoreOrReport(cause: Status) returns (item: Item)
      requires Valid() && Now().pc == Restore(cause)
      modifies this
      ensures Valid() && old(run) <= run && world.handles == old(world.handles)
      ensures Now() == old(Now()).(pc := CloseTarget(item), world := world)
    {
      var path := job.target.path;
      var c := Await();
      if c.Fail? || path in world.names || job.backup !in world.names {
        item := Item(path, Failed, Some(job.backup));
      } else {
        world := Rename(world, job.backup, path);
        item := Item(path, cause, None);
      }
      Record(c);
    }

    /** Rejects a keeper on another volume, then checks for cancellation. */
    method CheckVolumeAndContext(keeper: Identity) returns (stop: Option<Status>)
      requires Valid() && Now().pc == CheckVolume && Now().keeper == keeper
      modifies this
      ensures Valid() && old(run) <= run && world.handles == old(world.handles)
      ensures Now() == old(Now()).(pc := if stop.None? then OpenTarget
                                         else CloseKeeper(Item(job.target.path, stop.value, None)),
                                   world := world)
    {
      var c := Await();
      stop := if keeper.volume != job.target.identity.volume then Some(SkippedCrossVolume)
              else if c.Fail? then Some(Cancelled) else None;
      Record(c);
    }

    /** Resolves the final paths, draws the backup name, checks for cancellation. */
    method PrepareBackupPath() returns (stop: Option<Status>)
      requires Valid() && Now().pc == PrepareBackup
      modifies this
      ensures Valid() && old(run) <= run && world.handles == old(world.handles)
      ensures Now() == old(Now()).(pc := if stop.None? then RenameAside
                                         else CloseTarget(Item(job.target.path, stop.value, None)),
                                   world := world)
    {
      var c := Await();
      stop := if c.Go? then None else if c.error == ContextDone then Some(Cancelled) else Some(Failed);
      Record(c);
    }

    /** Releases the candidate; a disposed one disappears here. */
    method CloseTargetFile(target: Identity)
      requires Valid() && Now().pc.CloseTarget? && Now().target == target
      modifies this
      ensures Valid() && old(run) <= run
      ensures Now() == old(Now()).(pc := CloseKeeper(old(Now()).pc.item), world := world)
    {
      var c := Await();
      world := Close(world, DeleteHandle(target), job.backup);
      Record(c);
    }

    /** Releases the keeper. */
    method CloseKeeperFile(keeper: Identity, keeperPath: Path)
      requires Valid() && Now().pc.CloseKeeper? && Now().keeper == keeper && Now().keeperPath == keeperPath
      modifies this
      ensures Valid() && old(run) <= run && world.handles == {}
      ensures Now() == old(Now()).(pc := Returned(old(Now()).pc.item), world := world)
    {
      var c := Await();
      world := Close(world, ReadHandle(keeper), keeperPath);
      Record(c);
      BehaviourStaysValid(job, run, |run| - 1);
    }

    /** Opens one keeper candidate, and keeps its handle only if everything verifies. */
    method OpenVerifiedRecord(i: nat) returns (err: Option<Error>, file: Identity)
      requires Valid() && Now().pc == OpenKeeper(i) && i < |job.keepers| && world.handles == {}
      modifies this
      ensures Valid() && old(run) <= run
      ensures err.None? ==> Now().pc.CheckVolume? && Now().keeper == file && Now().keeperPath == job.keepers[i].path
                            && world.handles == {ReadHandle(file)}
      ensures err.None? ==> file == job.keepers[i].identity && Verifies(job, world, job.keepers[i])
      ensures err.Some? ==> world.handles == {} && KeeperFailed(old(Now()), Now(), i, err.value)
    {
      err, file := OpenKeeperFile(i);
      if err.Some? { return; }
      var seen;
      err, seen := InspectKeeperFile(i, file);
      if err.Some? { return; }
      err := HashKeeperFile(i, file, seen);
    }

    ghost predicate KeeperFailed(before: State, after: State, i: nat, e: Error) {
      if StatusOf(e) == Cancelled then after.pc == Returned(Item(job.target.path, Cancelled, None))
      else
        && after.pc == OpenKeeper(i + 1)
        && after.sawChanged == (before.sawChanged || StatusOf(e) == SkippedChanged)
        && after.sawProtected == (before.sawProtected || StatusOf(e) == SkippedProtected)
    }

    /** The first keeper that verifies, its handle held; otherwise the reason. */
    method OpenVerifiedKeeperRecord() returns (status: Option<Status>, keeper: Identity, keeperPath: Path)
      requires Valid() && Now() == Start(world) && world.handles == {}
      modifies this
      ensures Valid() && old(run) <= run
      ensures status.None? ==> Now().pc.CheckVolume? && Now().keeper == keeper && Now().keeperPath == keeperPath
                               && world.handles == {ReadHandle(keeper)}
      ensures status.Some? ==> Now().pc == Returned(Item(job.target.path, status.value, None)) && world.handles == {}
    {
      var sawChanged, sawProtected := false, false;
      keeper, keeperPath := NO_IDENTITY, "";
      var i := 0;
      while i < |job.keepers|
        invariant Valid() && old(run) <= run && i <= |job.keepers|
        invariant Now().pc == OpenKeeper(i) && world.handles == {}
        invariant Now().sawChanged == sawChanged && Now().sawProtected == sawProtected
      {
        var err;
        err, keeper := OpenVerifiedRecord(i);
        if err.None? { return None, keeper, job.keepers[i].path; }
        match StatusOf(err.value) {
          case Cancelled => return Some(Cancelled), keeper, keeperPath;
          case SkippedChanged => sawChanged := true;
          case SkippedProtected => sawProtected := true;
          case _ =>
        }
        i := i + 1;
      }
      Record(Go);
      status := Some(if sawChanged then SkippedChanged else if sawProtected then SkippedProtected else Failed);
    }

    /** Opens the candidate with delete access, and keeps the handle only if
        everything verifies. */
    method OpenVerifiedConsolidationTarget(keeper: Identity) returns (err: Option<Error>, file: Identity)
      requires Valid() && Now().pc == OpenTarget && Now().keeper == keeper && world.handles == {ReadHandle(keeper)}
      modifies this
      ensures Valid() && old(run) <= run && Now().keeper == keeper && Now().keeperPath == old(Now().keeperPath)
      ensures err.None? ==> Now().pc == PrepareBackup && Now().target == file && Verifies(job, world, job.target)
      ensures err.Some? ==> Now().pc == CloseKeeper(Item(job.target.path, StatusOf(err.value), None))
    {
      err, file := OpenTargetFile();
      if err.Some? { return; }
      var seen;
      err, seen := InspectTargetFile(keeper, file);
      if err.Some? { return; }
      err := HashTargetFile(keeper, file, seen);
    }

    /** Steps 2 to 5 for a verified candidate: rename aside, link the keeper,
        prove the link, dispose of the backup. */
    method ReplaceWithLink(keeperPath: Path, keeper: Identity, target: Identity) returns (item: Item)
      requires Valid() && Now().pc == RenameAside
      requires Now().keeperPath == keeperPath && Now().keeper == keeper && Now().target == target
      modifies this
      ensures Valid() && old(run) <= run && Now().pc == CloseTarget(item)
      ensures Now().keeperPath == keeperPath && Now().keeper == keeper && Now().target == target
    {
      var path := job.target.path;
      var renamed := RenameTargetAside();
      if !renamed { return Item(path, Failed, None); }
      var failure := LinkIntoPath(keeperPath);
      if failure.Some? {
        item := RestoreOrReport(failure.value);
        return;
      }
      var proved := VerifyPathHasIdentity(keeper);
      if !proved { return Item(path, Failed, Some(job.backup)); }
      var disposed := DisposeByHandle(target);
      item := if disposed then Item(path, Consolidated, None) else Item(path, Failed, Some(job.backup));
    }

    /** The platform sequence for one candidate, up to releasing its handle. */
    method ConsolidateTarget(keeper: Identity, keeperPath: Path) returns (item: Item)
      requires Valid() && Now().pc == OpenTarget && Now().keeper == keeper && Now().keeperPath == keeperPath
      requires world.handles == {ReadHandle(keeper)}
      modifies this
      ensures Valid() && old(run) <= run && Now().pc == CloseKeeper(item)
      ensures Now().keeper == keeper && Now().keeperPath == keeperPath
    {
      var path := job.target.path;
      var err, target := OpenVerifiedConsolidationTarget(keeper);
      if err.Some? { return Item(path, StatusOf(err.value), None); }
      var stop := PrepareBackupPath();
      if stop.Some? {
        item := Item(path, stop.value, None);
      } else {
        item := ReplaceWithLink(keeperPath, keeper, target);
      }
      CloseTargetFile(target);
    }

    /** One candidate from start to return: the history is a behaviour of the
        machine that ends by returning exactly this item. */
    method ConsolidateOne() returns (item: Item)
      requires Valid() && Now() == Start(world) && world.handles == {}
      modifies this
      ensures Valid() && old(run) <= run && Now().pc == Returned(item) && world.handles == {}
    {
      var path := job.target.path;
      var status, keeper, keeperPath := OpenVerifiedKeeperRecord();
      if status.Some? { return Item(path, status.value, None); }
      var stop := CheckVolumeAndContext(keeper);
      if stop.Some? {
        item := Item(path, stop.value, None);
      } else {
        item := ConsolidateTarget(keeper, keeperPath);
      }
      CloseKeeperFile(keeper, keeperPath);
    }
  }
}
