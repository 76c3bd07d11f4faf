/**
 The foreground operation told by its history: what was asked and how it was
 answered decides the phase, every answer, and which cancel function is called.
 */
module OperationHistory {
  import opened Bytes
  import opened OperationState
  import opened OperationRuns

  // ------------------------------------------------------------------
  // Cancel functions are called when they have to be.

  /** A granted cancellation or folder change, or any request to close. */
  predicate Interrupts(m: Moment) {
    ((m.event.CancelScan? || m.event.CancelExport? || m.event.SelectFolder? || m.event.Reset?)
     && m.outcome.reply == Done)
    || m.event.RequestClose?
  }

  predicate Uninterrupted(run: seq<Moment>, i: nat, n: nat)
    requires i < n <= |run|
  {
    forall k :: i < k < n ==> !Interrupts(run[k])
  }

  lemma InterruptStep(s: State, e: Event)
    requires Sound(s)
    ensures var o := Step(s, e);
            && (!o.reply.Issued? ==> o.fired == if Interrupts(Moment(s, e, o)) then s.cancel else None)
            && (o.reply.Issued? ==> o.fired == None && !Interrupts(Moment(s, e, o)))
            && (o.state.active.Some? && !o.reply.Issued? ==>
                  o.state.cancel == if Interrupts(Moment(s, e, o)) then None else s.cancel)
  {
  }

  lemma InterruptAt(run: seq<Moment>, n: nat)
    requires IsRun(run) && n < |run|
    ensures var o := run[n].outcome;
            && (!o.reply.Issued? ==> o.fired == if Interrupts(run[n]) then At(run, n).cancel else None)
            && (o.reply.Issued? ==> o.fired == None && !Interrupts(run[n]))
            && (o.state.active.Some? && !o.reply.Issued? ==>
                  o.state.cancel == if Interrupts(run[n]) then None else At(run, n).cancel)
  {
    AlwaysSound(run, n);
    assert StepAt(run, n);
    InterruptStep(At(run, n), run[n].event);
    assert run[n] == Moment(At(run, n), run[n].event, run[n].outcome);
  }

  /** The operation in progress holds the cancel function it was begun with until
      the first interruption, and none from then on. */
  lemma {:induction false} HeldUntilInterrupted(run: seq<Moment>, i: nat, n: nat)
    requires IsRun(run) && i < n <= |run| && Owner(run, n) == Some(i)
    ensures At(run, n).cancel == if Uninterrupted(run, i, n) then CancelOf(run[i].event) else None
    decreases n
  {
    ActiveAt(run, n - 1);
    InterruptAt(run, n - 1);
    if n > i + 1 {
      HeldUntilInterrupted(run, i, n - 1);
      assert Uninterrupted(run, i, n) <==> Uninterrupted(run, i, n - 1) && !Interrupts(run[n - 1]);
    }
  }

  /** So the first interruption of an operation calls its cancel function, and
      nothing else ever calls any. */
  lemma CalledExactly(run: seq<Moment>, n: nat)
    requires IsRun(run) && n < |run|
    ensures run[n].outcome.fired
         == if Interrupts(run[n]) && Owner(run, n).Some? && Uninterrupted(run, Owner(run, n).value, n)
            then CancelOf(run[Owner(run, n).value].event) else None
  {
    InterruptAt(run, n);
    OwnerTracks(run, n);
    if Owner(run, n).Some? { HeldUntilInterrupted(run, Owner(run, n).value, n); }
  }

  /** A held function leaves the state only by being called or because its
      operation has completed. */
  lemma HeldLeavesCalled(run: seq<Moment>, n: nat)
    requires IsRun(run) && n < |run| && At(run, n).cancel.Some? && At(run, n + 1).cancel != At(run, n).cancel
    ensures run[n].outcome.fired == At(run, n).cancel || Completed(run, n)
  {
    InterruptAt(run, n);
    ActiveAt(run, n);
    assert StepAt(run, n);
    if At(run, n + 1).active.None? { DroppedOnlyBy(At(run, n), run[n].event); }
  }

  lemma DroppedOnlyBy(s: State, e: Event)
    requires Sound(s) && s.active.Some? && Step(s, e).state.active.None?
    ensures Step(s, e).reply.Accepted? || (e == RequestClose && Step(s, e).reply == CloseNow)
  {
  }

  // ------------------------------------------------------------------
  // What was asked and answered.

  /** How far the user has come. */
  datatype Stage = Nothing | Folder | Surface | Results

  /** What the requests and answers so far amount to. */
  datatype Summary = Summary(
    folder: string,
    revision: nat,         // of the folder
    stage: Stage,
    busy: Option<Kind>,    // the operation in progress
    interrupted: bool,     // whether its cancellation was granted
    closeAsked: bool,      // whether closing was asked for meanwhile
    closed: bool)

  const BLANK := Summary("", 0, Nothing, None, false, false, false)

  function Begun(h: Summary, kind: Kind, reply: Reply): Summary {
    if reply.Issued? then h.(busy := Some(kind), interrupted := false, closeAsked := false) else h
  }

  function After(h: Summary, e: Event, reply: Reply): Summary {
    match e
    case SelectFolder(folder) =>
      if reply == Done then h.(folder := folder, revision := Increment(h.revision), stage := Folder) else h
    case Reset => if reply == Done then h.(folder := "", revision := Increment(h.revision), stage := Nothing) else h
    case ClearResults => if reply == Done then h.(stage := Surface) else h
    case BeginSurface(_, _) => Begun(h, SurfaceScan, reply)
    case BeginDuplicate(_, _) => Begun(h, DuplicateScan, reply)
    case BeginExport(_, _) => Begun(h, Export, reply)
    case BeginDelete(_) => Begun(h, Delete, reply)
    case CancelScan => if reply == Done then h.(interrupted := true) else h
    case CancelExport => if reply == Done then h.(interrupted := true) else h
    case CompleteSurface(_, successful) =>
      if reply.Accepted? then h.(busy := None, stage := if successful && !h.interrupted then Surface else Folder)
      else h
    case CompleteDuplicate(_, successful) =>
      if reply.Accepted? then h.(busy := None, stage := if successful && !h.interrupted then Results else Surface)
      else h
    case CompleteExport(_) => if reply.Accepted? then h.(busy := None, closed := h.closeAsked) else h
    case CompleteDelete(_) => if reply.Accepted? then h.(busy := None, closed := h.closeAsked) else h
    case RequestClose => if reply == CloseNow then h.(busy := None, closed := true) else h.(closeAsked := true)
  }

  function Summarized(run: seq<Moment>, n: nat): Summary
    requires n <= |run|
  {
    if n == 0 then BLANK else After(Summarized(run, n - 1), run[n - 1].event, run[n - 1].outcome.reply)
  }

  function PhaseFor(h: Summary): Phase {
    match h.busy
    case Some(SurfaceScan) => if h.interrupted then SurfaceCancelling else SurfaceScanning
    case Some(DuplicateScan) => if h.interrupted then DuplicateCancelling else DuplicateScanning
    case Some(Export) =>
      if h.closeAsked then ClosingAfterExport else if h.interrupted then ExportCancelling else Exporting
    case Some(Delete) => if h.closeAsked then ClosingAfterDelete else Deleting
    case Some(UnknownKind) => Closing
    case None =>
      if h.closed then Closing
      else match h.stage
        case Nothing => NoFolder
        case Folder => FolderReady
        case Surface => SurfaceReady
        case Results => ResultsReady
  }

  /** The state is what its history amounts to. */
  predicate Reflects(h: Summary, s: State) {
    && s.phase == PhaseFor(h) && s.folder == h.folder && s.folderRevision == h.revision
    && (h.busy.Some? ==> s.active.Some? && s.active.value.kind == h.busy.value && h.busy != Some(UnknownKind))
    && (h.closed ==> h.busy.None?) && (h.busy == Some(Export) || h.busy == Some(Delete) ==> h.stage == Results)
  }

  predicate Idle(h: Summary) { h.busy.None? && !h.closed }

  /** The answer to a request to begin: a token for this folder if it may begin. */
  predicate BeginAnswer(h: Summary, allowed: bool, kind: Kind, startedAt: int, reply: Reply) {
    if allowed then
      reply.Issued? && reply.token.kind == kind && reply.token.startedAt == startedAt && reply.token.folder == h.folder
      && reply.token.folderRevision == h.revision
    else reply == NotAllowed
  }

  function Granted(allowed: bool): Reply { if allowed then Done else NotAllowed }

  /** The right answer to an event, but for which completions are accepted. */
  predicate RightAnswer(h: Summary, e: Event, reply: Reply) {
    match e
    case SelectFolder(folder) => reply == if IsBlank(folder) then FolderRequired else Granted(Idle(h))
    case Reset => reply == Granted(Idle(h))
    case ClearResults => reply == Granted(Idle(h) && h.stage == Results)
    case BeginSurface(startedAt, _) => BeginAnswer(h, Idle(h) && h.stage == Folder, SurfaceScan, startedAt, reply)
    case BeginDuplicate(startedAt, _) =>
      BeginAnswer(h, Idle(h) && (h.stage == Surface || h.stage == Results), DuplicateScan, startedAt, reply)
    case BeginExport(startedAt, _) => BeginAnswer(h, Idle(h) && h.stage == Results, Export, startedAt, reply)
    case BeginDelete(startedAt) => BeginAnswer(h, Idle(h) && h.stage == Results, Delete, startedAt, reply)
    case CancelScan =>
      reply == Granted((h.busy == Some(SurfaceScan) || h.busy == Some(DuplicateScan)) && !h.interrupted)
    case CancelExport => reply == Granted(h.busy == Some(Export) && !h.interrupted && !h.closeAsked)
    case CompleteSurface(_, _) => reply == Stale || (reply == Accepted(false) && h.busy == Some(SurfaceScan))
    case CompleteDuplicate(_, _) => reply == Stale || (reply == Accepted(false) && h.busy == Some(DuplicateScan))
    case CompleteExport(_) => reply == Stale || (reply == Accepted(h.closeAsked) && h.busy == Some(Export))
    case CompleteDelete(_) => reply == Stale || (reply == Accepted(h.closeAsked) && h.busy == Some(Delete))
    case RequestClose =>
      reply == if h.busy == Some(Export) || h.busy == Some(Delete) then CloseDeferred else CloseNow
  }

  lemma BeginReflects(h: Summary, s: State, e: Event)
    requires Reflects(h, s) && Sound(s) && (e.BeginSurface? || e.BeginDuplicate? || e.BeginExport? || e.BeginDelete?)
    ensures Reflects(After(h, e, Step(s, e).reply), Step(s, e).state) && RightAnswer(h, e, Step(s, e).reply)
  {
  }

  lemma ScanReflects(h: Summary, s: State, e: Event)
    requires Reflects(h, s) && Sound(s) && (e.CompleteSurface? || e.CompleteDuplicate?)
    ensures Reflects(After(h, e, Step(s, e).reply), Step(s, e).state) && RightAnswer(h, e, Step(s, e).reply)
  {
  }

  lemma GuardedReflects(h: Summary, s: State, e: Event)
    requires Reflects(h, s) && Sound(s) && (e.CompleteExport? || e.CompleteDelete?)
    ensures Reflects(After(h, e, Step(s, e).reply), Step(s, e).state) && RightAnswer(h, e, Step(s, e).reply)
  {
  }

  lemma SelectReflects(h: Summary, s: State, folder: string)
    requires Reflects(h, s) && Sound(s)
    ensures var o := Step(s, SelectFolder(folder));
            Reflects(After(h, SelectFolder(folder), o.reply), o.state) && RightAnswer(h, SelectFolder(folder), o.reply)
  {
  }

  lemma ResetReflects(h: Summary, s: State)
    requires Reflects(h, s) && Sound(s)
    ensures Reflects(After(h, Reset, Step(s, Reset).reply), Step(s, Reset).state)
    ensures RightAnswer(h, Reset, Step(s, Reset).reply)
  {
  }

  lemma ClearReflects(h: Summary, s: State)
    requires Reflects(h, s) && Sound(s)
    ensures Reflects(After(h, ClearResults, Step(s, ClearResults).reply), Step(s, ClearResults).state)
    ensures RightAnswer(h, ClearResults, Step(s, ClearResults).reply)
  {
  }

  lemma CancelReflects(h: Summary, s: State, e: Event)
    requires Reflects(h, s) && Sound(s) && (e.CancelScan? || e.CancelExport?)
    ensures Reflects(After(h, e, Step(s, e).reply), Step(s, e).state) && RightAnswer(h, e, Step(s, e).reply)
  {
  }

  lemma CloseReflects(h: Summary, s: State)
    requires Reflects(h, s) && Sound(s)
    ensures var o := Step(s, RequestClose);
            Reflects(After(h, RequestClose, o.reply), o.state) && RightAnswer(h, RequestClose, o.reply)
  {
  }

  lemma StepReflects(h: Summary, s: State, e: Event)
    requires Reflects(h, s) && Sound(s)
    ensures Reflects(After(h, e, Step(s, e).reply), Step(s, e).state) && RightAnswer(h, e, Step(s, e).reply)
  {
    if e.BeginSurface? || e.BeginDuplicate? || e.BeginExport? || e.BeginDelete? {
      BeginReflects(h, s, e);
    } else if e.CompleteSurface? || e.CompleteDuplicate? {
      ScanReflects(h, s, e);
    } else if e.CompleteExport? || e.CompleteDelete? {
      GuardedReflects(h, s, e);
    } else if e.SelectFolder? {
      SelectReflects(h, s, e.folder);
    } else if e.Reset? {
      ResetReflects(h, s);
    } else if e.ClearResults? {
      ClearReflects(h, s);
    } else if e.CancelScan? || e.CancelExport? {
      CancelReflects(h, s, e);
    } else {
      CloseReflects(h, s);
    }
  }

  /** In every run the phase and the folder are what the requests and answers so
      far amount to: an accepted scan leads on only if it was successful and not
      cancelled, an export or a deletion back to the results, or to the close that
      was asked for meanwhile. */
  lemma {:induction false} StateOfHistory(run: seq<Moment>, n: nat)
    requires IsRun(run) && n <= |run|
    ensures Reflects(Summarized(run, n), At(run, n))
  {
    if n > 0 {
      StateOfHistory(run, n - 1);
      AlwaysSound(run, n - 1);
      assert StepAt(run, n - 1);
      StepReflects(Summarized(run, n - 1), At(run, n - 1), run[n - 1].event);
    }
  }

  /** How often the folder was changed. */
  function Changes(run: seq<Moment>, n: nat): nat
    requires n <= |run|
  {
    if n == 0 then 0
    else
      Changes(run, n - 1)
      + if (run[n - 1].event.SelectFolder? || run[n - 1].event.Reset?) && run[n - 1].outcome.reply == Done then 1 else 0
  }

  lemma {:induction false} RevisionCounts(run: seq<Moment>, n: nat)
    requires n <= |run|
    ensures Summarized(run, n).revision == Changes(run, n) % UINT64
  {
    if n > 0 {
      RevisionCounts(run, n - 1);
      IncrementMod(Changes(run, n - 1));
    }
  }

  /** And every answer is the right one for that history. */
  lemma AnsweredRightly(run: seq<Moment>, n: nat)
    requires IsRun(run) && n < |run|
    ensures RightAnswer(Summarized(run, n), run[n].event, run[n].outcome.reply)
  {
    StateOfHistory(run, n);
    AlwaysSound(run, n);
    assert StepAt(run, n);
    StepReflects(Summarized(run, n), At(run, n), run[n].event);
  }
}
