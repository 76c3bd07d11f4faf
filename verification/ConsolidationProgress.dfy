/**
 What a consolidation achieves when nothing goes wrong: one candidate is replaced
 exactly when the first keeper that verifies is another file of its volume. A
 linked keeper stops verifying, and a keeper on another volume ends the search, so
 a request uses its keepers in order, each at most once.
 */
module ConsolidationProgress {
  import opened Bytes
  import opened Records
  import opened FileSystem
  import opened Consolidation
  import opened ConsolidationItem
  import opened ConsolidationRequest

  // ------------------------------------------------------------------
  // One candidate.

  /** The run in which every call does what the file system permits. */
  function Onward(job: Job, s: State): (end: State)
    ensures end.pc.Returned?
    decreases Rank(job, s.pc)
  {
    if s.pc.Returned? then s
    else
      StepLowersRank(job, s, Go);
      Onward(job, Step(job, s, Go))
  }

  lemma {:induction false} FinishIsOnward(job: Job, s: State, choices: nat -> Choice, t: nat)
    requires forall n :: choices(n) == Go
    ensures Finish(job, s, choices, t) == Onward(job, s)
    decreases Rank(job, s.pc)
  {
    if !s.pc.Returned? {
      StepLowersRank(job, s, Go);
      FinishIsOnward(job, Step(job, s, Go), choices, t + 1);
    }
  }

  lemma OneStep(job: Job, s: State)
    requires !s.pc.Returned?
    ensures Onward(job, s) == Onward(job, Step(job, s, Go))
  {
  }

  /** The record's path names a file that has other names or a stream. */
  predicate Protected(w: World, r: FileRecord) {
    r.path in w.names
    && (|Links(w, w.names[r.path])| != 1 || Look(w, w.names[r.path]).namedStreams != 0)
  }

  lemma RecordedIsUnprotected(w: World, r: FileRecord)
    requires AsRecorded(w, r)
    ensures !Protected(w, r)
  {
  }

  /** How a refused file counts. */
  lemma RefusedAs(w: World, r: FileRecord, id: Identity)
    requires Bound(w, r.path, id)
    ensures Refusal(r, SnapshotOf(w, id)).None? <==> AsRecorded(w, r)
    ensures Refusal(r, SnapshotOf(w, id)).Some? ==>
              StatusOf(Refusal(r, SnapshotOf(w, id)).value)
              == if Protected(w, r) then SkippedProtected else SkippedChanged
  {
    RefusedUnlessAsRecorded(r, SnapshotOf(w, id));
    SeenExactly(w, r, id);
  }

  /** The first keeper from i on that verifies, or the number of keepers. */
  function FirstVerifying(job: Job, w: World, i: nat): (k: nat)
    requires i <= |job.keepers|
    ensures i <= k <= |job.keepers| && (k < |job.keepers| ==> Verifies(job, w, job.keepers[k]))
    ensures forall j :: i <= j < k ==> !Verifies(job, w, job.keepers[j])
    decreases |job.keepers| - i
  {
    if i == |job.keepers| || Verifies(job, w, job.keepers[i]) then i else FirstVerifying(job, w, i + 1)
  }

  /** Keeper i was passed over and what it was counted as. */
  predicate PassedOver(job: Job, s: State, s': State, i: nat)
    requires i < |job.keepers|
  {
    var protected := Protected(s.world, job.keepers[i]);
    && s'.pc == OpenKeeper(i + 1) && s'.world == s.world.(handles := {})
    && s'.sawChanged == (s.sawChanged || !protected) && s'.sawProtected == (s.sawProtected || protected)
  }

  lemma SkipMissing(job: Job, s: State, i: nat) returns (s': State)
    requires s.pc == OpenKeeper(i) && i < |job.keepers| && s.world.handles == {}
             && job.keepers[i].path !in s.world.names
    ensures Onward(job, s) == Onward(job, s') && PassedOver(job, s, s', i)
  {
    OneStep(job, s);
    s' := Step(job, s, Go);
  }

  lemma OpenPresent(job: Job, s: State, i: nat) returns (s': State)
    requires s.pc == OpenKeeper(i) && i < |job.keepers| && s.world.handles == {} && job.keepers[i].path in s.world.names
    ensures Onward(job, s) == Onward(job, s')
    ensures var id := s.world.names[job.keepers[i].path];
            s' == s.(pc := InspectKeeper(i), world := s.world.(handles := {ReadHandle(id)}), keeper := id,
                     keeperPath := job.keepers[i].path)
  {
    OneStep(job, s);
    s' := Step(job, s, Go);
  }

  lemma SameLook(w: World, handles: set<Handle>, id: Identity)
    ensures SnapshotOf(w.(handles := handles), id) == SnapshotOf(w, id)
            && Look(w.(handles := handles), id) == Look(w, id)
  {
    assert Links(w.(handles := handles), id) == Links(w, id);
  }

  lemma SameProtected(w: World, handles: set<Handle>, r: FileRecord)
    ensures Protected(w.(handles := handles), r) == Protected(w, r)
  {
    if r.path in w.names { SameLook(w, handles, w.names[r.path]); }
  }

  lemma SkipRefused(job: Job, w: World, s: State, i: nat) returns (s': State)
    requires s.pc == InspectKeeper(i) && i < |job.keepers| && w.handles == {}
    requires s.world == w.(handles := {ReadHandle(s.keeper)}) && Bound(w, job.keepers[i].path, s.keeper)
    requires !AsRecorded(w, job.keepers[i])
    ensures Onward(job, s) == Onward(job, s') && PassedOver(job, s, s', i)
  {
    SameLook(w, s.world.handles, s.keeper);
    SameProtected(w, s.world.handles, job.keepers[i]);
    RefusedAs(w, job.keepers[i], s.keeper);
    OneStep(job, s);
    s' := Step(job, s, Go);
  }

  lemma InspectGood(job: Job, w: World, s: State, i: nat) returns (s': State)
    requires s.pc == InspectKeeper(i) && i < |job.keepers| && w.handles == {}
    requires s.world == w.(handles := {ReadHandle(s.keeper)}) && Bound(w, job.keepers[i].path, s.keeper)
    requires AsRecorded(w, job.keepers[i])
    ensures Onward(job, s) == Onward(job, s') && s' == s.(pc := HashKeeper(i, SnapshotOf(w, s.keeper)))
  {
    SameLook(w, s.world.handles, s.keeper);
    RefusedAs(w, job.keepers[i], s.keeper);
    OneStep(job, s);
    s' := Step(job, s, Go);
  }

  lemma HashDecides(job: Job, w: World, s: State, i: nat) returns (s': State)
    requires i < |job.keepers| && s.pc == HashKeeper(i, SnapshotOf(w, s.keeper)) && w.handles == {}
    requires s.world == w.(handles := {ReadHandle(s.keeper)}) && Bound(w, job.keepers[i].path, s.keeper)
    requires AsRecorded(w, job.keepers[i])
    ensures Onward(job, s) == Onward(job, s')
    ensures if job.sha(Look(w, s.keeper).bytes) == job.hash then s' == s.(pc := CheckVolume)
            else PassedOver(job, s, s', i)
  {
    SameLook(w, s.world.handles, s.keeper);
    SameProtected(w, s.world.handles, job.keepers[i]);
    RecordedIsUnprotected(w, job.keepers[i]);
    OneStep(job, s);
    s' := Step(job, s, Go);
  }

  /** A keeper that does not verify is passed over, the disk untouched; one that
      does is taken. */
  lemma TryKeeper(job: Job, s: State, i: nat) returns (s': State)
    requires s.pc == OpenKeeper(i) && i < |job.keepers| && s.world.handles == {}
    ensures Onward(job, s) == Onward(job, s')
    ensures if Verifies(job, s.world, job.keepers[i]) then Taken(job, s.world, s', i) else PassedOver(job, s, s', i)
  {
    var w := s.world;
    if job.keepers[i].path !in w.names {
      s' := SkipMissing(job, s, i);
    } else {
      var s1 := OpenPresent(job, s, i);
      SameProtected(w, s1.world.handles, job.keepers[i]);
      if AsRecorded(w, job.keepers[i]) {
        s' := InspectGood(job, w, s1, i);
        s' := HashDecides(job, w, s', i);
      } else {
        s' := SkipRefused(job, w, s1, i);
      }
    }
  }

  /** Keeper i has been verified and is held. */
  predicate Taken(job: Job, w: World, s: State, i: nat) {
    i < |job.keepers| && s.pc == CheckVolume && s.keeper == job.keepers[i].identity
      && s.keeperPath == job.keepers[i].path
    && s.world == w.(handles := {ReadHandle(s.keeper)})
  }

  /** The status of a search in which no keeper from i on verifies: a changed one
      counts before a protected one. */
  function SearchStatus(job: Job, w: World, i: nat, sawChanged: bool, sawProtected: bool): Status {
    if sawChanged || exists j :: i <= j < |job.keepers| && !Protected(w, job.keepers[j]) then SkippedChanged
    else if sawProtected || i < |job.keepers| then SkippedProtected
    else Failed
  }

  lemma {:induction false} FindKeeper(job: Job, s: State, i: nat) returns (s': State)
    requires s.pc == OpenKeeper(i) && i <= |job.keepers| && s.world.handles == {}
    ensures Onward(job, s) == Onward(job, s')
    ensures var k := FirstVerifying(job, s.world, i);
            if k < |job.keepers| then Taken(job, s.world, s', k)
            else IsReturned(job, s', SearchStatus(job, s.world, i, s.sawChanged, s.sawProtected))
    decreases |job.keepers| - i
  {
    if i == |job.keepers| {
      OneStep(job, s);
      s' := Step(job, s, Go);
    } else {
      s' := TryKeeper(job, s, i);
      if !Verifies(job, s.world, job.keepers[i]) { s' := FindKeeper(job, s', i + 1); }
    }
  }

  /** Returned with this status, nothing left aside. */
  predicate IsReturned(job: Job, s: State, status: Status) { s.pc == Returned(Item(job.target.path, status, None)) }

  lemma ClosingReturns(job: Job, s: State)
    requires s.pc.CloseTarget? || s.pc.CloseKeeper?
    ensures Onward(job, s).pc == Returned(s.pc.item)
  {
    if s.pc.CloseTarget? {
      OneStep(job, s);
      OneStep(job, Step(job, s, Go));
    } else {
      OneStep(job, s);
    }
  }

  /** What a candidate comes to once keeper `k` is held. */
  function CandidateStatus(job: Job, w: World, k: FileRecord): Status {
    if k.identity.volume != job.target.identity.volume then SkippedCrossVolume
    else if job.target.path !in w.names then SkippedChanged
    else if w.names[job.target.path] == k.identity then Failed
    else if Protected(w, job.target) then SkippedProtected
    else if !Verifies(job, w, job.target) then SkippedChanged
    else if job.backup in w.names then Failed
    else Consolidated
  }

  lemma OpenCandidate(job: Job, w: World, s: State, i: nat) returns (s': State)
    requires Taken(job, w, s, i) && w.handles == {}
    ensures Onward(job, s) == Onward(job, s')
    ensures if s.keeper.volume == job.target.identity.volume && job.target.path in w.names
               && w.names[job.target.path] != s.keeper
            then s' == s.(pc := InspectTarget, target := w.names[job.target.path],
                          world := w.(handles := {ReadHandle(s.keeper), DeleteHandle(w.names[job.target.path])}))
            else s'.pc == CloseKeeper(Item(job.target.path, CandidateStatus(job, w, job.keepers[i]), None))
  {
    OneStep(job, s);
    s' := Step(job, s, Go);
    if s'.pc.OpenTarget? {
      OneStep(job, s');
      s' := Step(job, s', Go);
    }
  }

  /** The candidate is open: it is inspected and hashed. */
  lemma VerifyCandidate(job: Job, w: World, s: State) returns (s': State)
    requires s.pc == InspectTarget && Bound(w, job.target.path, s.target)
    requires s.world == w.(handles := {ReadHandle(s.keeper), DeleteHandle(s.target)})
    ensures Onward(job, s) == Onward(job, s')
    ensures if Verifies(job, w, job.target)
              then s' == s.(pc := PrepareBackup, verified := Some(Look(w, s.target).bytes))
            else s'.pc == CloseKeeper(Item(job.target.path,
                                           if Protected(w, job.target) then SkippedProtected else SkippedChanged, None))
  {
    SameLook(w, s.world.handles, s.target);
    RefusedAs(w, job.target, s.target);
    if AsRecorded(w, job.target) { RecordedIsUnprotected(w, job.target); }
    OneStep(job, s);
    s' := Step(job, s, Go);
    if s'.pc.HashTarget? {
      OneStep(job, s');
      s' := Step(job, s', Go);
    }
  }

  /** Returned with the candidate's path linked to the keeper. */
  predicate Replaced(job: Job, s: State, keeper: Identity) {
    s.pc == Returned(Item(job.target.path, Consolidated, None)) && Bound(s.world, job.target.path, keeper)
  }

  /** A verified candidate is replaced if the backup name is unused. */
  lemma ReplaceCandidate(job: Job, s: State)
    requires s.pc == PrepareBackup && Bound(s.world, job.target.path, s.target)
             && Bound(s.world, s.keeperPath, s.keeper)
    requires s.keeper != s.target && s.world.deletePending == {}
    ensures if job.backup in s.world.names then IsReturned(job, Onward(job, s), Failed)
            else Replaced(job, Onward(job, s), s.keeper)
  {
    OneStep(job, s);
    var s1 := Step(job, s, Go);
    OneStep(job, s1);
    var s2 := Step(job, s1, Go);
    if job.backup in s.world.names {
      ClosingReturns(job, s2);
    } else {
      LinkCandidate(job, s2);
    }
  }

  lemma LinkCandidate(job: Job, s: State)
    requires s.pc == LinkKeeper && job.target.path !in s.world.names && Bound(s.world, s.keeperPath, s.keeper)
    requires job.backup in s.world.names && s.world.deletePending == {}
    ensures Replaced(job, Onward(job, s), s.keeper)
  {
    OneStep(job, s);
    var s1 := Step(job, s, Go);
    OneStep(job, s1);
    var s2 := Step(job, s1, Go);
    OneStep(job, s2);
    DisposalReturns(job, Step(job, s2, Go));
  }

  /** The two handles are closed; the backup name goes with the candidate's. */
  lemma DisposalReturns(job: Job, s: State)
    requires s.pc == CloseTarget(Item(job.target.path, Consolidated, None)) && job.target.path != job.backup
    requires Bound(s.world, job.target.path, s.keeper) && s.world.deletePending <= {s.target}
    ensures Replaced(job, Onward(job, s), s.keeper)
  {
    OneStep(job, s);
    OneStep(job, Step(job, s, Go));
  }

  /** From a held keeper on. */
  lemma HeldKeeperDecides(job: Job, w: World, s: State, i: nat)
    requires Taken(job, w, s, i) && w.handles == {} && w.deletePending == {} && Bound(w, s.keeperPath, s.keeper)
    ensures var status := CandidateStatus(job, w, job.keepers[i]);
            if status == Consolidated then Replaced(job, Onward(job, s), job.keepers[i].identity)
            else IsReturned(job, Onward(job, s), status)
  {
    var s1 := OpenCandidate(job, w, s, i);
    if s1.pc.CloseKeeper? {
      ClosingReturns(job, s1);
    } else {
      var s2 := VerifyCandidate(job, w, s1);
      if s2.pc.CloseKeeper? {
        ClosingReturns(job, s2);
      } else {
        RecordedIsUnprotected(w, job.target);
        ReplaceCandidate(job, s2);
      }
    }
  }

  /** What a candidate comes to on this disk. */
  function StatusOnDisk(job: Job, w: World): Status {
    var k := FirstVerifying(job, w, 0);
    if k < |job.keepers| then CandidateStatus(job, w, job.keepers[k]) else SearchStatus(job, w, 0, false, false)
  }

  /** Without faults the disk alone decides a candidate's item: it is consolidated
      exactly when some keeper verifies and the first that does is another file of
      its volume, the candidate verifies too, and the backup name is unused. It is
      that keeper that the candidate's path then names. */
  lemma ConsolidatedExactly(job: Job, w: World, choices: nat -> Choice)
    requires Idle(w) && forall t :: choices(t) == Go
    ensures var end, k := Finish(job, Start(w), choices, 0), FirstVerifying(job, w, 0);
            && end.pc.item == Item(job.target.path, StatusOnDisk(job, w), None)
            && (end.pc.item.status == Consolidated
                <==> && k < |job.keepers| && job.keepers[k].identity.volume == job.target.identity.volume
                     && job.keepers[k].identity != job.target.identity
                     && Verifies(job, w, job.target) && job.backup !in w.names)
            && (end.pc.item.status == Consolidated ==> Bound(end.world, job.target.path, job.keepers[k].identity))
  {
    FinishIsOnward(job, Start(w), choices, 0);
    var s := FindKeeper(job, Start(w), 0);
    var k := FirstVerifying(job, w, 0);
    if k < |job.keepers| { HeldKeeperDecides(job, w, s, k); }
    if Verifies(job, w, job.target) { RecordedIsUnprotected(w, job.target); }
  }

  // ------------------------------------------------------------------
  // On an unchanged disk.

  /** The disk is as the record says, but for the number of the object's names. */
  predicate Intact(sha: Content -> string, hash: string, w: World, r: FileRecord) {
    Bound(w, r.path, r.identity) && r.linkCount == 1 && r.namedStreams == 0
    && Object(Look(w, r.identity).bytes, r.modifiedAt, 0) == Look(w, r.identity)
    && r.size == |Look(w, r.identity).bytes| && sha(Look(w, r.identity).bytes) == hash
  }

  predicate SingleNamed(w: World, r: FileRecord) { |Links(w, r.identity)| == 1 }

  lemma IntactVerifies(job: Job, w: World, r: FileRecord)
    requires Intact(job.sha, job.hash, w, r)
    ensures Verifies(job, w, r) <==> SingleNamed(w, r)
    ensures !SingleNamed(w, r) ==> Protected(w, r)
  {
    if SingleNamed(w, r) { SoleLink(w, r.identity, r.path); }
  }

  /** Since the scan only names have been added to keepers, and the backup name is
      unused. */
  ghost predicate Unchanged(job: Job, w: World) {
    && (forall k :: k in job.keepers ==>
          Intact(job.sha, job.hash, w, k) && k.identity != job.target.identity)
    && Intact(job.sha, job.hash, w, job.target) && SingleNamed(w, job.target) && job.backup !in w.names
  }

  /** Keeper i is the first that still has only one name. */
  predicate FirstSingle(job: Job, w: World, i: nat) {
    i < |job.keepers| && SingleNamed(w, job.keepers[i]) && forall j :: 0 <= j < i ==> !SingleNamed(w, job.keepers[j])
  }

  predicate SameVolume(a: FileRecord, b: FileRecord) { a.identity.volume == b.identity.volume }

  lemma FirstSingleIsFirst(job: Job, w: World, i: nat)
    requires Unchanged(job, w)
    ensures FirstSingle(job, w, i) <==> i == FirstVerifying(job, w, 0) < |job.keepers|
  {
    forall k | k in job.keepers ensures Verifies(job, w, k) <==> SingleNamed(w, k) {
      IntactVerifies(job, w, k);
    }
    var first := FirstVerifying(job, w, 0);
    assert forall j :: 0 <= j < first ==> job.keepers[j] in job.keepers;
    if first < |job.keepers| { assert job.keepers[first] in job.keepers; }
    if i < |job.keepers| { assert job.keepers[i] in job.keepers; }
  }

  /** Then a candidate is consolidated exactly when the first keeper with only one
      name is on its volume, and its path names that keeper from then on. */
  lemma ConsolidatedIfKeeperLeft(job: Job, w: World, choices: nat -> Choice)
    requires Idle(w) && Unchanged(job, w) && forall t :: choices(t) == Go
    ensures var item := Finish(job, Start(w), choices, 0).pc.item;
            && (item.status == Consolidated
                <==> exists i: nat :: FirstSingle(job, w, i) && SameVolume(job.keepers[i], job.target))
            && item.backup == None
    ensures forall i: nat :: FirstSingle(job, w, i) ==>
              var end := Finish(job, Start(w), choices, 0);
              if SameVolume(job.keepers[i], job.target) then Bound(end.world, job.target.path, job.keepers[i].identity)
              else end.pc.item.status == SkippedCrossVolume
  {
    ConsolidatedExactly(job, w, choices);
    IntactVerifies(job, w, job.target);
    var first := FirstVerifying(job, w, 0);
    forall i: nat ensures FirstSingle(job, w, i) <==> i == first < |job.keepers| { FirstSingleIsFirst(job, w, i); }
    if first < |job.keepers| { assert job.keepers[first] in job.keepers; }
  }

  // No keeper is left.

  /** Linked keepers are protected ones, and so the search reports. */
  lemma NoKeeperLeft(job: Job, w: World, choices: nat -> Choice)
    requires Idle(w) && forall t :: choices(t) == Go
    requires forall k :: k in job.keepers ==> Bound(w, k.path, k.identity) && !SingleNamed(w, k)
    ensures Finish(job, Start(w), choices, 0).pc.item.status == if job.keepers == [] then Failed else SkippedProtected
  {
    ConsolidatedExactly(job, w, choices);
    forall k | k in job.keepers ensures Protected(w, k) && !Verifies(job, w, k) {
    }
    var first := FirstVerifying(job, w, 0);
    if first < |job.keepers| { assert job.keepers[first] in job.keepers; }
  }

  // ------------------------------------------------------------------
  // A whole request.

  ghost predicate NoFaults(b: Batch) { (forall n, t :: b.choices(n)(t) == Go) && forall n :: !b.stopped(n) }

  /** The keepers are different files. */
  ghost predicate DistinctKeepers(b: Batch) {
    forall i, j :: 0 <= i < j < |b.keepers| ==> b.keepers[i].identity != b.keepers[j].identity
  }

  /** The disk is as the scan saw it, and no backup name is used. */
  ghost predicate AsScanned(b: Batch, w: World) {
    && (forall r :: r in b.keepers + b.selected ==> Intact(b.sha, b.hash, w, r) && SingleNamed(w, r))
    && (forall n :: b.backups(n) !in w.names)
  }

  /** How many keepers candidates before the n-th use up: they go in order, and one
      on another volume than the candidate is kept for the next. */
  function UsedBefore(b: Batch, n: nat): (p: nat)
    requires n <= |b.selected|
    ensures p <= n && p <= |b.keepers|
    decreases n, 0
  {
    if n == 0 then 0 else UsedBefore(b, n - 1) + if Served(b, n - 1) then 1 else 0
  }

  /** The next keeper in order is on candidate n's volume. */
  predicate Served(b: Batch, n: nat)
    requires n < |b.selected|
    decreases n, 1
  {
    UsedBefore(b, n) < |b.keepers| && SameVolume(b.keepers[UsedBefore(b, n)], b.selected[n])
  }

  /** What is reported for candidate n. */
  function StatusAt(b: Batch, n: nat): Status
    requires n < |b.selected|
  {
    if Served(b, n) then Consolidated
    else if UsedBefore(b, n) < |b.keepers| then SkippedCrossVolume
    else if b.keepers == [] then Failed
    else SkippedProtected
  }

  /** The keepers that have got another name are the first p. */
  ghost predicate UsedAreFirst(b: Batch, w: World, p: nat) {
    p <= |b.keepers| && forall i :: 0 <= i < |b.keepers| ==> (SingleNamed(w, b.keepers[i]) <==> p <= i)
  }

  /** How the disk stands before candidate n: only names of keepers were added. */
  ghost predicate StandsAt(b: Batch, w: World, n: nat, w': World) {
    && Idle(w') && w'.names.Keys == w.names.Keys && n <= |b.selected|
    && (forall k :: k in b.keepers ==> Intact(b.sha, b.hash, w', k))
    && (forall i :: n <= i < |b.selected| ==>
          Intact(b.sha, b.hash, w', b.selected[i]) && SingleNamed(w', b.selected[i]))
  }

  lemma StandsAtStart(b: Batch, w: World)
    requires Idle(w) && AsScanned(b, w)
    ensures StandsAt(b, w, 0, w) && UsedAreFirst(b, w, 0)
  {
    forall r | r in b.keepers || r in b.selected ensures Intact(b.sha, b.hash, w, r) && SingleNamed(w, r) {
      assert r in b.keepers + b.selected;
    }
  }

  lemma UnchangedAt(b: Batch, w: World, n: nat, w': World)
    requires n < |b.selected| && Validated(b) && AsScanned(b, w) && StandsAt(b, w, n, w')
    ensures Unchanged(JobAt(b, n), w')
  {
    assert b.selected[n] in b.selected;
  }

  /** The names and objects a consolidation leaves. */
  ghost predicate Relinked(w: World, w': World, t: FileRecord, k: FileRecord) {
    w'.names == w.names[t.path := k.identity] && w'.objects == w.objects - {t.identity}
  }

  /** A keeper gains the candidate's path; all else is as before. */
  lemma OtherLinksSame(w: World, w': World, t: FileRecord, k: FileRecord, id: Identity)
    requires Relinked(w, w', t, k) && Links(w, t.identity) == {t.path} && k.identity != t.identity && id != t.identity
    ensures id != k.identity ==> Links(w', id) == Links(w, id)
    ensures Links(w', k.identity) == Links(w, k.identity) + {t.path} && t.path !in Links(w, k.identity)
    ensures Look(w', id) == Look(w, id)
  {
    assert t.path in Links(w, t.identity);
  }

  lemma StaysIntact(b: Batch, w: World, w': World, t: FileRecord, k: FileRecord, r: FileRecord)
    requires Relinked(w, w', t, k) && Links(w, t.identity) == {t.path} && k.identity != t.identity
    requires r.identity != t.identity && r.path != t.path && Intact(b.sha, b.hash, w, r)
    ensures Intact(b.sha, b.hash, w', r) && (r.identity != k.identity ==> SingleNamed(w', r) == SingleNamed(w, r))
  {
    OtherLinksSame(w, w', t, k, r.identity);
  }

  /** The consolidation of candidate n uses up keeper p. */
  lemma KeeperUsed(b: Batch, w: World, n: nat, w1: World, w2: World, p: nat)
    requires n < |b.selected| && Validated(b) && DistinctKeepers(b) && StandsAt(b, w, n, w1) && Idle(w2)
    requires p < |b.keepers| && UsedAreFirst(b, w1, p) && Relinked(w1, w2, b.selected[n], b.keepers[p])
    ensures StandsAt(b, w, n + 1, w2) && UsedAreFirst(b, w2, p + 1)
  {
    var t, k := b.selected[n], b.keepers[p];
    SoleLink(w1, t.identity, t.path);
    assert k in b.keepers;
    forall r | r in b.keepers ensures Intact(b.sha, b.hash, w2, r) {
      assert Bound(w1, r.path, r.identity) && r.path != t.path;
      StaysIntact(b, w1, w2, t, k, r);
    }
    forall i | n + 1 <= i < |b.selected|
      ensures Intact(b.sha, b.hash, w2, b.selected[i]) && SingleNamed(w2, b.selected[i])
    {
      StaysIntact(b, w1, w2, t, k, b.selected[i]);
    }
    NextIsUsed(b, w1, w2, t, p);
  }

  lemma NextIsUsed(b: Batch, w1: World, w2: World, t: FileRecord, p: nat)
    requires DistinctKeepers(b) && p < |b.keepers| && UsedAreFirst(b, w1, p) && Relinked(w1, w2, t, b.keepers[p])
    requires Links(w1, t.identity) == {t.path} && forall r :: r in b.keepers ==> r.identity != t.identity
    ensures UsedAreFirst(b, w2, p + 1)
  {
    assert b.keepers[p] in b.keepers;
    forall i | 0 <= i < |b.keepers| ensures SingleNamed(w2, b.keepers[i]) <==> p + 1 <= i {
      assert b.keepers[i] in b.keepers;
      OtherLinksSame(w1, w2, t, b.keepers[p], b.keepers[i].identity);
    }
  }

  /** Before candidate n, p keepers being used up. */
  ghost predicate ReadyFor(b: Batch, w: World, n: nat, p: nat) {
    n < |b.selected| && Validated(b) && DistinctKeepers(b) && NoFaults(b) && AsScanned(b, w)
    && StandsAt(b, w, n, Run(b, w, n).0) && UsedAreFirst(b, Run(b, w, n).0, p)
  }

  lemma TurnWithKeeper(b: Batch, w: World, n: nat, p: nat)
    requires ReadyFor(b, w, n, p) && p < |b.keepers|
    ensures var w1, end := Run(b, w, n).0, Finish(JobAt(b, n), Start(Run(b, w, n).0), b.choices(n), 0);
            if SameVolume(b.keepers[p], b.selected[n]) then
              end.pc.item.status == Consolidated && Bound(end.world, b.selected[n].path, b.keepers[p].identity)
            else end.pc.item.status == SkippedCrossVolume
    ensures Finish(JobAt(b, n), Start(Run(b, w, n).0), b.choices(n), 0).pc.item.backup == None
  {
    var w1, job := Run(b, w, n).0, JobAt(b, n);
    UnchangedAt(b, w, n, w1);
    ConsolidatedIfKeeperLeft(job, w1, b.choices(n));
    assert FirstSingle(job, w1, p);
  }

  lemma TurnWithoutKeeper(b: Batch, w: World, n: nat)
    requires ReadyFor(b, w, n, |b.keepers|)
    ensures var item := Finish(JobAt(b, n), Start(Run(b, w, n).0), b.choices(n), 0).pc.item;
            item.status == (if b.keepers == [] then Failed else SkippedProtected) && item.backup == None
  {
    var w1, job := Run(b, w, n).0, JobAt(b, n);
    UnchangedAt(b, w, n, w1);
    ConsolidatedIfKeeperLeft(job, w1, b.choices(n));
    NoKeeperLeft(job, w1, b.choices(n));
  }

  /** Candidate n is consolidated exactly when the next keeper is on its volume, and
      uses it up; otherwise it changes nothing. */
  lemma OneTurn(b: Batch, w: World, n: nat)
    requires n < |b.selected| && ReadyFor(b, w, n, UsedBefore(b, n))
    ensures Run(b, w, n + 1).1 == Run(b, w, n).1 + [Item(b.selected[n].path, StatusAt(b, n), None)]
    ensures StandsAt(b, w, n + 1, Run(b, w, n + 1).0) && UsedAreFirst(b, Run(b, w, n + 1).0, UsedBefore(b, n + 1))
    ensures !Served(b, n) ==> Run(b, w, n + 1).0 == Run(b, w, n).0
  {
    var w1, w2, p := Run(b, w, n).0, Run(b, w, n + 1).0, UsedBefore(b, n);
    var k := NextItem(b, w, n);
    if p < |b.keepers| { TurnWithKeeper(b, w, n, p); } else { TurnWithoutKeeper(b, w, n); }
    if Served(b, n) {
      assert k.identity == b.keepers[p].identity;
      KeeperUsed(b, w, n, w1, w2, p);
    } else {
      assert w2 == w1;
    }
  }

  /** The items report what was foretold. */
  ghost predicate Foretold(b: Batch, items: seq<Item>) {
    |items| <= |b.selected|
    && forall i :: 0 <= i < |items| ==> items[i] == Item(b.selected[i].path, StatusAt(b, i), None)
  }

  /** How a request stands after its first items. */
  ghost predicate AsForetold(b: Batch, w: World, items: seq<Item>) {
    && Foretold(b, items) && CountConsolidated(items) == UsedBefore(b, |items|)
    && UsedAreFirst(b, w, UsedBefore(b, |items|))
  }

  lemma OneMoreForetold(b: Batch, w: World, w': World, items: seq<Item>)
    requires AsForetold(b, w, items) && |items| < |b.selected|
    requires UsedAreFirst(b, w', UsedBefore(b, |items| + 1))
    ensures AsForetold(b, w', items + [Item(b.selected[|items|].path, StatusAt(b, |items|), None)])
  {
    CountOneMore(items, Item(b.selected[|items|].path, StatusAt(b, |items|), None));
  }

  lemma {:induction false} TurnsTaken(b: Batch, w: World, n: nat)
    requires n <= |b.selected| && Idle(w) && Validated(b) && DistinctKeepers(b) && NoFaults(b) && AsScanned(b, w)
    ensures StandsAt(b, w, n, Run(b, w, n).0) && AsForetold(b, Run(b, w, n).0, Run(b, w, n).1)
  {
    if n == 0 {
      StandsAtStart(b, w);
    } else {
      TurnsTaken(b, w, n - 1);
      OneTurn(b, w, n - 1);
      OneMoreForetold(b, Run(b, w, n - 1).0, Run(b, w, n).0, Run(b, w, n - 1).1);
    }
  }

  lemma ItemsForetold(b: Batch, w: World, n: nat)
    requires n <= |b.selected| && Idle(w) && Validated(b) && DistinctKeepers(b) && NoFaults(b) && AsScanned(b, w)
    ensures Foretold(b, Run(b, w, n).1)
  {
    TurnsTaken(b, w, n);
  }

  /** Each of the first n candidates shares its volume with the keeper of its index. */
  predicate Paired(b: Batch, n: nat)
    requires n <= |b.selected|
  {
    n <= |b.keepers| && forall i :: 0 <= i < n ==> SameVolume(b.keepers[i], b.selected[i])
  }

  lemma {:induction false} PairedServes(b: Batch, n: nat)
    requires n <= |b.selected| && Paired(b, n)
    ensures UsedBefore(b, n) == n
  {
    if n > 0 { PairedServes(b, n - 1); }
  }

  lemma {:induction false} ServedArePaired(b: Batch, n: nat)
    requires n <= |b.selected| && UsedBefore(b, n) == n
    ensures Paired(b, n)
  {
    if n > 0 { ServedArePaired(b, n - 1); }
  }

  function Min(a: nat, b: nat): nat { if a < b then a else b }

  /** Keepers and candidates share one volume. */
  ghost predicate OneVolume(b: Batch) {
    forall k, t :: k in b.keepers && t in b.selected ==> SameVolume(k, t)
  }

  lemma {:induction false} OneVolumeServes(b: Batch, n: nat)
    requires n <= |b.selected| && OneVolume(b)
    ensures UsedBefore(b, n) == Min(n, |b.keepers|)
  {
    if n > 0 { OneVolumeServes(b, n - 1); }
  }

  ghost predicate AllConsolidated(items: seq<Item>) {
    forall i :: 0 <= i < |items| ==> items[i].status == Consolidated
  }

  lemma {:induction false} CountAll(items: seq<Item>)
    ensures CountConsolidated(items) <= |items|
    ensures CountConsolidated(items) == |items| <==> AllConsolidated(items)
  {
    if items != [] { CountAll(items[..|items| - 1]); }
  }

  /** Without faults, on the disk as scanned, every item is as foretold: keepers are
      used in order, each at most once, and one on another volume than the candidate
      is not passed over. So every candidate is consolidated if and only if there are
      at least as many keepers and each shares its volume with the candidate of its
      index; on one volume as many are as there are keepers. */
  lemma ConsolidatesExactly(b: Batch, w: World)
    requires Idle(w) && Validated(b) && DistinctKeepers(b) && NoFaults(b) && AsScanned(b, w)
    ensures var items := Run(b, w, |b.selected|).1;
            && Foretold(b, items) && CountConsolidated(items) == UsedBefore(b, |b.selected|)
            && (AllConsolidated(items) <==> Paired(b, |b.selected|))
            && (OneVolume(b) ==> CountConsolidated(items) == Min(|b.selected|, |b.keepers|))
  {
    TurnsTaken(b, w, |b.selected|);
    CountAll(Run(b, w, |b.selected|).1);
    if UsedBefore(b, |b.selected|) == |b.selected| { ServedArePaired(b, |b.selected|); }
    if Paired(b, |b.selected|) { PairedServes(b, |b.selected|); }
    if OneVolume(b) { OneVolumeServes(b, |b.selected|); }
  }

  /** A candidate for which no keeper is left, or the next is on another volume,
      changes nothing: it keeps its object and its path. */
  lemma LeftCandidateStays(b: Batch, w: World, n: nat)
    requires n < |b.selected| && Idle(w) && Validated(b) && DistinctKeepers(b) && NoFaults(b) && AsScanned(b, w)
    requires !Served(b, n)
    ensures Run(b, w, n + 1).0 == Run(b, w, n).0
    ensures Bound(Run(b, w, n + 1).0, b.selected[n].path, b.selected[n].identity)
  {
    TurnsTaken(b, w, n);
    OneTurn(b, w, n);
  }

  // ------------------------------------------------------------------
  // Requests that leave a duplicate although nothing goes wrong.

  function Record(path: Path, volume: nat, fileId: nat): FileRecord {
    FileRecord(path, 1, 0, 0, "", Identity(volume, fileId), 1, 0, Scope("", Identity(1, 0), false))
  }

  function Zeros(n: nat): (s: string)
    ensures |s| == n && forall i :: 0 <= i < n ==> s[i] == '0'
  {
    if n == 0 then "" else Zeros(n - 1) + "0"
  }

  function SameDigest(content: Content): string { HASH }

  function Unhindered(n: nat): nat -> Choice { (t: nat) => Go }

  function UnusedName(n: nat): Path { "backup" }

  predicate NeverStopped(n: nat) { false }

  const HASH := Zeros(64)
  const FAR := Record("far", 2, 1)
  const NEAR := Record("near", 1, 1)
  const FIRST := Record("first", 1, 2)
  const SECOND := Record("second", 1, 3)
  const ONE_BYTE := Object([0], 0, 0)

  function FourFiles(): World {
    World(map["far" := FAR.identity, "near" := NEAR.identity, "first" := FIRST.identity, "second" := SECOND.identity],
          map[FAR.identity := ONE_BYTE, NEAR.identity := ONE_BYTE, FIRST.identity := ONE_BYTE,
              SECOND.identity := ONE_BYTE], {}, {})
  }

  lemma FourFilesAsScanned(r: FileRecord)
    requires r == FAR || r == NEAR || r == FIRST || r == SECOND
    ensures Intact(SameDigest, HASH, FourFiles(), r) && SingleNamed(FourFiles(), r)
  {
    assert Links(FourFiles(), r.identity) == {r.path};
  }

  function Unfaulted(keepers: seq<FileRecord>, selected: seq<FileRecord>): Batch {
    Batch(SameDigest, HASH, keepers, selected, UnusedName, Unhindered, NeverStopped)
  }

  lemma ValidUnfaulted(keepers: seq<FileRecord>, selected: seq<FileRecord>)
    requires forall r :: r in keepers + selected ==> r == FAR || r == NEAR || r == FIRST || r == SECOND
    ensures AsScanned(Unfaulted(keepers, selected), FourFiles()) && Idle(FourFiles())
  {
    forall r | r in keepers + selected ensures Intact(SameDigest, HASH, FourFiles(), r) && SingleNamed(FourFiles(), r) {
      FourFilesAsScanned(r);
    }
  }

  lemma SecondIsLeft(b: Batch)
    requires b == Unfaulted([NEAR], [FIRST, SECOND])
    ensures StatusAt(b, 0) == Consolidated && StatusAt(b, 1) == SkippedProtected && OneVolume(b)
  {
    assert UsedBefore(b, 0) == 0 && Served(b, 0);
    assert UsedBefore(b, 1) == 1 && !Served(b, 1);
  }

  /** A valid request whose second candidate stays a duplicate: its only keeper has
      been linked to the first. */
  lemma SecondCandidateStays() returns (b: Batch, w: World)
    ensures |b.keepers| == 1 && |b.selected| == 2 && OneVolume(b)
    ensures Idle(w) && Validated(b) && DistinctKeepers(b) && NoFaults(b) && AsScanned(b, w)
    ensures Run(b, w, 2).1[0].status == Consolidated && Run(b, w, 2).1[1].status == SkippedProtected
    ensures Bound(Run(b, w, 2).0, b.selected[1].path, b.selected[1].identity)
  {
    b, w := Unfaulted([NEAR], [FIRST, SECOND]), FourFiles();
    ValidUnfaulted([NEAR], [FIRST, SECOND]);
    SecondIsLeft(b);
    ItemsForetold(b, w, 2);
    LeftCandidateStays(b, w, 1);
  }

  lemma FirstIsLeft(b: Batch)
    requires b == Unfaulted([FAR, NEAR], [FIRST])
    ensures StatusAt(b, 0) == SkippedCrossVolume
  {
    assert UsedBefore(b, 0) == 0 && !Served(b, 0);
  }

  /** A valid request of one candidate that stays a duplicate although a keeper is on
      its volume: the keeper before that one is on another. */
  lemma FarKeeperInTheWay() returns (b: Batch, w: World)
    ensures b.keepers == [FAR, NEAR] && b.selected == [FIRST] && b.hash == HASH && SameVolume(NEAR, FIRST)
    ensures Idle(w) && Validated(b) && DistinctKeepers(b) && NoFaults(b) && AsScanned(b, w)
    ensures Run(b, w, 1).1[0].status == SkippedCrossVolume
    ensures Bound(Run(b, w, 1).0, FIRST.path, FIRST.identity)
  {
    b, w := Unfaulted([FAR, NEAR], [FIRST]), FourFiles();
    ValidUnfaulted([FAR, NEAR], [FIRST]);
    FirstIsLeft(b);
    ItemsForetold(b, w, 1);
    LeftCandidateStays(b, w, 0);
  }
}
