/**
 What holds over whole runs of the foreground operation state. Operations are
 told apart by the event that began them, so that nothing depends on tokens
 being different; when tokens are different is stated exactly.
 */
module OperationRuns {
  import opened Bytes
  import opened OperationState

  /** One event handled: the state before it and what came of it. */
  datatype Moment = Moment(before: State, event: Event, outcome: Outcome)

  /** The state before moment n. */
  function At(run: seq<Moment>, n: nat): State
    requires n <= |run|
  {
    if n == 0 then INITIAL else run[n - 1].outcome.state
  }

  predicate StepAt(run: seq<Moment>, n: nat)
    requires n < |run|
  {
    run[n].before == At(run, n) && run[n].outcome == Step(run[n].before, run[n].event)
  }

  predicate IsRun(run: seq<Moment>) { forall n :: 0 <= n < |run| ==> StepAt(run, n) }

  /** The moment that began the operation active before moment n. */
  function Owner(run: seq<Moment>, n: nat): (owner: Option<nat>)
    requires n <= |run|
    ensures owner.Some? ==> owner.value < n
  {
    if n == 0 then None
    else if run[n - 1].outcome.reply.Issued? then Some(n - 1)
    else if run[n - 1].outcome.state.active.None? then None
    else Owner(run, n - 1)
  }

  // ------------------------------------------------------------------
  // What every step keeps.

  predicate Busy(phase: Phase) {
    phase == SurfaceScanning || phase == SurfaceCancelling || phase == DuplicateScanning || phase == DuplicateCancelling
    || phase == Exporting || phase == ExportCancelling || phase == ClosingAfterExport
    || phase == Deleting || phase == ClosingAfterDelete
  }

  /** A cancel function is held only while it may still be called. */
  predicate Cancellable(phase: Phase) { phase == SurfaceScanning || phase == DuplicateScanning || phase == Exporting }

  predicate Sound(s: State) {
    && (s.active.Some? <==> Busy(s.phase))
    && (s.active.Some? ==>
          var token := s.active.value;
          PhaseOf(token.kind, s.phase) && token.folder == s.folder && token.folderRevision == s.folderRevision
          && token.generation == s.nextGeneration)
    && (s.cancel.Some? ==> Cancellable(s.phase))
    && (s.allowClose <==> s.phase == Closing)
    && (s.closeRequested <==> s.phase == Closing || s.phase == ClosingAfterExport || s.phase == ClosingAfterDelete)
    && s.nextGeneration < UINT64 && s.folderRevision < UINT64
  }

  lemma StepKeepsSound(s: State, e: Event)
    requires Sound(s)
    ensures Sound(Step(s, e).state)
  {
    if e.BeginSurface? || e.BeginDuplicate? || e.BeginExport? || e.BeginDelete? {
      BeginKeepsSound(s, e);
    } else if e.CompleteSurface? || e.CompleteDuplicate? || e.CompleteExport? || e.CompleteDelete? {
      CompletionKeepsSound(s, e);
    } else {
      OtherKeepsSound(s, e);
    }
  }

  lemma BeginKeepsSound(s: State, e: Event)
    requires Sound(s) && (e.BeginSurface? || e.BeginDuplicate? || e.BeginExport? || e.BeginDelete?)
    ensures Sound(Step(s, e).state)
  {
  }

  lemma CompletionKeepsSound(s: State, e: Event)
    requires Sound(s) && (e.CompleteSurface? || e.CompleteDuplicate? || e.CompleteExport? || e.CompleteDelete?)
    ensures Sound(Step(s, e).state)
  {
  }

  lemma OtherKeepsSound(s: State, e: Event)
    requires Sound(s)
    requires e.SelectFolder? || e.Reset? || e.ClearResults? || e.CancelScan? || e.CancelExport? || e.RequestClose?
    ensures Sound(Step(s, e).state)
  {
  }

  /** In every reachable state an operation is active exactly in the busy phases,
      and its token matches the phase's kind, the folder and the revision. */
  lemma {:induction false} AlwaysSound(run: seq<Moment>, n: nat)
    requires IsRun(run) && n <= |run|
    ensures Sound(At(run, n))
  {
    if n > 0 {
      AlwaysSound(run, n - 1);
      assert StepAt(run, n - 1);
      StepKeepsSound(At(run, n - 1), run[n - 1].event);
    }
  }

  function CancelOf(e: Event): Option<nat> {
    match e
    case BeginSurface(_, cancel) => cancel
    case BeginDuplicate(_, cancel) => cancel
    case BeginExport(_, cancel) => cancel
    case _ => None
  }

  /** What becomes of the active operation: begun with its cancel function, kept
      with at most that function, or gone; what is called is the function held. */
  predicate ActiveStep(s: State, e: Event, o: Outcome) {
    if o.reply.Issued? then
      s.active.None? && o.state.active == Some(o.reply.token) && o.state.cancel == CancelOf(e) && o.fired.None?
    else
      (o.state.active.Some? ==> o.state.active == s.active && (o.state.cancel == s.cancel || o.state.cancel.None?))
      && (o.fired.Some? ==> o.fired == s.cancel && o.state.cancel.None?)
      && (o.reply.Accepted? ==> s.active.Some? && o.state.active.None? && o.fired.None?)
  }

  lemma StepActive(s: State, e: Event)
    requires Sound(s)
    ensures ActiveStep(s, e, Step(s, e))
  {
    match e {
      case SelectFolder(_) =>
      case Reset =>
      case ClearResults =>
      case BeginSurface(_, _) =>
      case CompleteSurface(_, _) =>
      case BeginDuplicate(_, _) =>
      case CompleteDuplicate(_, _) =>
      case CancelScan =>
      case BeginExport(_, _) =>
      case CancelExport =>
      case CompleteExport(_) =>
      case BeginDelete(_) =>
      case CompleteDelete(_) =>
      case RequestClose =>
    }
  }

  lemma ActiveAt(run: seq<Moment>, n: nat)
    requires IsRun(run) && n < |run|
    ensures run[n].before == At(run, n) && Sound(At(run, n)) && Sound(At(run, n + 1))
    ensures ActiveStep(At(run, n), run[n].event, run[n].outcome)
  {
    AlwaysSound(run, n);
    AlwaysSound(run, n + 1);
    assert StepAt(run, n);
    StepActive(At(run, n), run[n].event);
  }

  predicate Began(run: seq<Moment>, i: nat, token: Token)
    requires i < |run|
  {
    run[i].outcome.reply == Issued(token)
  }

  /** The active token and the held cancel function are those of the owner. */
  lemma {:induction false} OwnerTracks(run: seq<Moment>, n: nat)
    requires IsRun(run) && n <= |run|
    ensures At(run, n).active.Some? <==> Owner(run, n).Some?
    ensures At(run, n).cancel.Some? ==> Owner(run, n).Some?
    ensures Owner(run, n).Some? ==> Began(run, Owner(run, n).value, At(run, n).active.value)
    ensures At(run, n).cancel.Some? ==> At(run, n).cancel == CancelOf(run[Owner(run, n).value].event)
  {
    if n > 0 {
      OwnerTracks(run, n - 1);
      ActiveAt(run, n - 1);
    }
  }

  /** An operation is active without interruption: once gone it never returns. */
  lemma {:induction false} OwnerContiguous(run: seq<Moment>, i: nat, k: nat, n: nat)
    requires i < k <= n <= |run| && Owner(run, n) == Some(i)
    ensures Owner(run, k) == Some(i)
    decreases n
  {
    if k < n { OwnerContiguous(run, i, k, n - 1); }
  }

  // ------------------------------------------------------------------
  // Completions.

  /** A folder change, a reset, or a close that goes ahead. */
  predicate Boundary(run: seq<Moment>, k: nat)
    requires k < |run|
  {
    var e, reply := run[k].event, run[k].outcome.reply;
    ((e.SelectFolder? || e.Reset?) && reply == Done) || reply == CloseNow
  }

  predicate Completed(run: seq<Moment>, k: nat)
    requires k < |run|
  {
    run[k].outcome.reply.Accepted?
  }

  lemma BoundaryStep(s: State, e: Event)
    requires Sound(s)
    ensures var reply := Step(s, e).reply;
            ((e.SelectFolder? || e.Reset?) && reply == Done) || reply == CloseNow ==> Step(s, e).state.active.None?
  {
  }

  lemma RetiredAfter(run: seq<Moment>, k: nat)
    requires IsRun(run) && k < |run| && (Boundary(run, k) || Completed(run, k))
    ensures Owner(run, k + 1) == None
  {
    ActiveAt(run, k);
    assert StepAt(run, k);
    BoundaryStep(At(run, k), run[k].event);
  }

  lemma BegunAfter(run: seq<Moment>, k: nat, n: nat)
    requires IsRun(run) && k < n <= |run| && (Completed(run, k) || Boundary(run, k)) && Owner(run, n).Some?
    ensures k < Owner(run, n).value
  {
    RetiredAfter(run, k);
    var i := Owner(run, n).value;
    if i <= k { OwnerContiguous(run, i, k + 1, n); }
  }

  function CompletionToken(e: Event): Option<Token> {
    match e
    case CompleteSurface(token, _) => Some(token)
    case CompleteDuplicate(token, _) => Some(token)
    case CompleteExport(token) => Some(token)
    case CompleteDelete(token) => Some(token)
    case _ => None
  }

  function KindOf(e: Event): Kind {
    match e
    case CompleteSurface(_, _) => SurfaceScan
    case CompleteDuplicate(_, _) => DuplicateScan
    case CompleteExport(_) => Export
    case CompleteDelete(_) => Delete
    case _ => UnknownKind
  }

  lemma AcceptStep(s: State, e: Event)
    requires Sound(s)
    ensures Step(s, e).reply.Accepted?
       <==> CompletionToken(e).Some? && CompletionToken(e).value.kind == KindOf(e) && s.active == CompletionToken(e)
  {
  }

  /** A completion is accepted exactly when its token is that of the operation
      in progress and of the kind it reports on. */
  lemma AcceptedExactly(run: seq<Moment>, n: nat)
    requires IsRun(run) && n < |run|
    ensures Completed(run, n)
       <==> CompletionToken(run[n].event).Some? && CompletionToken(run[n].event).value.kind == KindOf(run[n].event)
            && Owner(run, n).Some? && Began(run, Owner(run, n).value, CompletionToken(run[n].event).value)
  {
    ActiveAt(run, n);
    assert StepAt(run, n);
    AcceptStep(At(run, n), run[n].event);
    OwnerTracks(run, n);
  }

  /** Each operation is completed at most once, and never after a folder change,
      a reset or a close: whoever is completed began later. */
  lemma CompletedOnce(run: seq<Moment>, k: nat, n: nat)
    requires IsRun(run) && k < n < |run| && (Completed(run, k) || Boundary(run, k)) && Completed(run, n)
    ensures Owner(run, n).Some? && k < Owner(run, n).value
  {
    AcceptedExactly(run, n);
    BegunAfter(run, k, n);
  }

  // ------------------------------------------------------------------
  // Cancellation.

  predicate Fired(run: seq<Moment>, n: nat)
    requires n < |run|
  {
    run[n].outcome.fired.Some?
  }

  lemma CancelIsOwners(run: seq<Moment>, n: nat)
    requires IsRun(run) && n < |run| && Fired(run, n)
    ensures Owner(run, n).Some? && At(run, n).cancel == run[n].outcome.fired == CancelOf(run[Owner(run, n).value].event)
  {
    ActiveAt(run, n);
    OwnerTracks(run, n);
  }

  lemma {:induction false} CancelStaysCalled(run: seq<Moment>, i: nat, m: nat, n: nat)
    requires IsRun(run) && i <= m < n <= |run| && Owner(run, n) == Some(i) && Fired(run, m)
    ensures At(run, n).cancel.None?
    decreases n
  {
    ActiveAt(run, n - 1);
    if m + 1 < n {
      OwnerContiguous(run, i, n - 1, n);
      CancelStaysCalled(run, i, m, n - 1);
    }
  }

  /** A cancel function is called for the operation it was given to, and for no
      operation twice. */
  lemma CancelledOnce(run: seq<Moment>, m: nat, n: nat)
    requires IsRun(run) && m < n < |run| && Fired(run, m) && Fired(run, n)
    ensures Owner(run, m).Some? && run[m].outcome.fired == CancelOf(run[Owner(run, m).value].event)
    ensures Owner(run, n).Some? && run[n].outcome.fired == CancelOf(run[Owner(run, n).value].event)
    ensures Owner(run, m) != Owner(run, n)
  {
    CancelIsOwners(run, m);
    CancelIsOwners(run, n);
    if Owner(run, m) == Owner(run, n) { CancelStaysCalled(run, Owner(run, n).value, m, n); }
  }

  /** It is never called once the operation has completed, nor after a folder
      change, a reset or a close. */
  lemma NotCancelledAfterEnd(run: seq<Moment>, k: nat, n: nat)
    requires IsRun(run) && k < n < |run| && (Completed(run, k) || Boundary(run, k)) && Fired(run, n)
    ensures Owner(run, n).Some? && k < Owner(run, n).value
  {
    CancelIsOwners(run, n);
    BegunAfter(run, k, n);
  }

  /** Cancellation of a scan was granted since moment i began it. */
  predicate CancelledSince(run: seq<Moment>, i: nat, n: nat)
    requires i < n <= |run|
  {
    exists k :: i < k < n && run[k].event == CancelScan && run[k].outcome.reply == Done
  }

  predicate Cancelling(phase: Phase) { phase == SurfaceCancelling || phase == DuplicateCancelling }

  lemma CancellingStep(s: State, e: Event)
    ensures var o := Step(s, e);
            (o.reply.Issued? ==> !Cancelling(o.state.phase))
            && (!o.reply.Issued? && o.state.active.Some? ==>
                  (Cancelling(o.state.phase) <==> Cancelling(s.phase) || (e == CancelScan && o.reply == Done)))
  {
  }

  lemma {:induction false} CancellingPhase(run: seq<Moment>, i: nat, n: nat)
    requires IsRun(run) && i < n <= |run| && Owner(run, n) == Some(i)
    ensures CancelledSince(run, i, n) <==> Cancelling(At(run, n).phase)
    decreases n
  {
    assert StepAt(run, n - 1);
    CancellingStep(At(run, n - 1), run[n - 1].event);
    if n > i + 1 {
      CancellingPhase(run, i, n - 1);
      if CancelledSince(run, i, n - 1) {
        var k :| i < k < n - 1 && run[k].event == CancelScan && run[k].outcome.reply == Done;
      }
    }
  }

  lemma PublishStep(s: State, e: Event)
    requires Sound(s) && Step(s, e).reply.Accepted? && (e.CompleteSurface? || e.CompleteDuplicate?)
    ensures var published := e.successful && !Cancelling(s.phase);
            Step(s, e).state.phase
            == if e.CompleteSurface? then (if published then SurfaceReady else FolderReady)
               else if published then ResultsReady else SurfaceReady
  {
  }

  /** A scan publishes its outcome exactly when it succeeded and was not
      cancelled before its completion was accepted. */
  lemma PublishedExactly(run: seq<Moment>, n: nat)
    requires IsRun(run) && n < |run| && Completed(run, n)
             && (run[n].event.CompleteSurface? || run[n].event.CompleteDuplicate?)
    ensures Owner(run, n).Some?
    ensures var published := run[n].event.successful && !CancelledSince(run, Owner(run, n).value, n);
            At(run, n + 1).phase
            == if run[n].event.CompleteSurface? then (if published then SurfaceReady else FolderReady)
               else if published then ResultsReady else SurfaceReady
  {
    AcceptedExactly(run, n);
    ActiveAt(run, n);
    assert StepAt(run, n);
    PublishStep(At(run, n), run[n].event);
    CancellingPhase(run, Owner(run, n).value, n);
  }

  // ------------------------------------------------------------------
  // Closing.

  /** An export or a deletion is outstanding. */
  predicate Guarded(s: State) { s.active.Some? && (s.active.value.kind == Export || s.active.value.kind == Delete) }

  lemma CloseStep(s: State)
    requires Sound(s)
    ensures var o := Step(s, RequestClose);
            if Guarded(s) then o.reply == CloseDeferred && o.state.active == s.active && Deferred(o.state.phase)
            else o.reply == CloseNow && o.state.phase == Closing && o.state.active.None?
  {
  }

  /** The window closes at once exactly when no export and no deletion is
      outstanding; otherwise the operation goes on. */
  lemma ClosesExactly(run: seq<Moment>, n: nat)
    requires IsRun(run) && n < |run| && run[n].event == RequestClose
    ensures run[n].outcome.reply == (if Guarded(At(run, n)) then CloseDeferred else CloseNow)
    ensures if Guarded(At(run, n)) then At(run, n + 1).active == At(run, n).active
            else At(run, n + 1).phase == Closing && At(run, n + 1).active.None?
  {
    AlwaysSound(run, n);
    assert StepAt(run, n);
    CloseStep(At(run, n));
  }

  predicate Deferred(phase: Phase) { phase == ClosingAfterExport || phase == ClosingAfterDelete }

  lemma DeferredStep(s: State, e: Event)
    requires Sound(s)
    ensures var o := Step(s, e);
            && (o.reply == CloseDeferred ==> Deferred(o.state.phase) && o.state.active == s.active)
            && (Deferred(s.phase) && o.reply.Accepted? ==> o.reply == Accepted(true) && o.state.phase == Closing)
            && (Deferred(s.phase) && !o.reply.Accepted? ==> o.state == s)
  {
  }

  /** A deferred close is kept: nothing but the outstanding completion is
      accepted, and that one closes the window. */
  lemma {:induction false} DeferredCloseIsKept(run: seq<Moment>, m: nat, n: nat)
    requires IsRun(run) && m < n <= |run| && run[m].outcome.reply == CloseDeferred
    requires forall k :: m < k < n ==> !Completed(run, k)
    ensures Deferred(At(run, n).phase) && At(run, n).active == At(run, m).active
    ensures n < |run| && Completed(run, n) ==> run[n].outcome.reply == Accepted(true) && At(run, n + 1).phase == Closing
    decreases n
  {
    DeferredAt(run, n - 1);
    if m + 1 < n {
      DeferredCloseIsKept(run, m, n - 1);
      assert !Completed(run, n - 1);
    }
    if n < |run| { DeferredAt(run, n); }
  }

  lemma DeferredAt(run: seq<Moment>, n: nat)
    requires IsRun(run) && n < |run|
    ensures run[n].outcome.reply == CloseDeferred ==>
              Deferred(At(run, n + 1).phase) && At(run, n + 1).active == At(run, n).active
    ensures Deferred(At(run, n).phase) && Completed(run, n) ==>
              run[n].outcome.reply == Accepted(true) && At(run, n + 1).phase == Closing
    ensures Deferred(At(run, n).phase) && !Completed(run, n) ==> At(run, n + 1) == At(run, n)
  {
    AlwaysSound(run, n);
    assert StepAt(run, n);
    DeferredStep(At(run, n), run[n].event);
  }

  lemma ClosingStep(s: State, e: Event)
    requires Sound(s) && s.phase == Closing
    ensures var o := Step(s, e);
            o.state.phase == Closing && o.fired.None? && !o.reply.Issued? && !o.reply.Accepted?
            && (e == RequestClose ==> o.reply == CloseNow)
  {
  }

  /** Closing is final: no operation starts, completes or is cancelled. */
  lemma {:induction false} ClosedForever(run: seq<Moment>, m: nat, n: nat)
    requires IsRun(run) && m <= n < |run| && At(run, m).phase == Closing
    ensures At(run, n).phase == At(run, n + 1).phase == Closing
    ensures !Fired(run, n) && !run[n].outcome.reply.Issued? && !Completed(run, n)
    ensures run[n].event == RequestClose ==> run[n].outcome.reply == CloseNow
    decreases n
  {
    if m < n { ClosedForever(run, m, n - 1); }
    AlwaysSound(run, n);
    assert StepAt(run, n);
    ClosingStep(At(run, n), run[n].event);
  }

  // ------------------------------------------------------------------
  // Tokens.

  /** The generation moves. */
  predicate Bumps(m: Moment) {
    m.outcome.reply.Issued? || ((m.event.SelectFolder? || m.event.Reset?) && m.outcome.reply == Done)
    || (m.outcome.reply == CloseNow && !m.before.allowClose)
  }

  function BumpCount(run: seq<Moment>, n: nat): nat
    requires n <= |run|
  {
    if n == 0 then 0 else BumpCount(run, n - 1) + if Bumps(run[n - 1]) then 1 else 0
  }

  lemma {:induction false} CountGrows(run: seq<Moment>, m: nat, n: nat)
    requires m <= n <= |run|
    ensures BumpCount(run, m) <= BumpCount(run, n)
    decreases n
  {
    if m < n { CountGrows(run, m, n - 1); }
  }

  lemma GenerationStep(s: State, e: Event)
    ensures var o := Step(s, e);
            o.state.nextGeneration == (if Bumps(Moment(s, e, o)) then Increment(s.nextGeneration) else s.nextGeneration)
            && (o.reply.Issued? ==> o.reply.token.generation == o.state.nextGeneration)
  {
  }

  /** The generation is the count of its moves, modulo the width of the counter. */
  lemma {:induction false} GenerationCounts(run: seq<Moment>, n: nat)
    requires IsRun(run) && n <= |run|
    ensures At(run, n).nextGeneration == BumpCount(run, n) % UINT64
  {
    if n > 0 {
      GenerationCounts(run, n - 1);
      assert StepAt(run, n - 1);
      GenerationStep(At(run, n - 1), run[n - 1].event);
      IncrementMod(BumpCount(run, n - 1));
    }
  }

  /** Two tokens agree in everything but the generation. */
  predicate AlikeOtherwise(a: Token, b: Token) { a == b.(generation := a.generation) }

  lemma TokenGeneration(run: seq<Moment>, i: nat, token: Token)
    requires IsRun(run) && i < |run| && Began(run, i, token)
    ensures token.generation == BumpCount(run, i + 1) % UINT64 && BumpCount(run, i + 1) == BumpCount(run, i) + 1
  {
    GenerationCounts(run, i + 1);
    assert StepAt(run, i);
    GenerationStep(At(run, i), run[i].event);
  }

  /** The tokens of two operations are equal exactly when everything but the
      generation agrees and the generation moved a multiple of 2^64 times
      between them. */
  lemma TokensEqualExactly(run: seq<Moment>, i: nat, j: nat, a: Token, b: Token)
    requires IsRun(run) && i < j < |run| && Began(run, i, a) && Began(run, j, b)
    ensures a == b <==> AlikeOtherwise(a, b) && (BumpCount(run, j + 1) - BumpCount(run, i + 1)) % UINT64 == 0
    ensures BumpCount(run, i + 1) < BumpCount(run, j + 1)
  {
    TokenGeneration(run, i, a);
    TokenGeneration(run, j, b);
    CountGrows(run, i + 1, j);
    ModDifference(BumpCount(run, i + 1), BumpCount(run, j + 1));
    assert a == b <==> AlikeOtherwise(a, b) && a.generation == b.generation;
  }

  /** A token is never accepted for another operation than its own, as long as
      the generation has moved fewer than 2^64 times since it was issued. */
  lemma TokenForItsOwnOperation(run: seq<Moment>, i: nat, n: nat, token: Token)
    requires IsRun(run) && i < n < |run| && Began(run, i, token)
    requires CompletionToken(run[n].event) == Some(token) && Completed(run, n)
    requires BumpCount(run, n) - BumpCount(run, i + 1) < UINT64
    ensures Owner(run, n) == Some(i)
  {
    AcceptedExactly(run, n);
    var j := Owner(run, n).value;
    if j < i {
      OwnerContiguous(run, j, i + 1, n);
    } else if j > i {
      TokensEqualExactly(run, i, j, token, token);
      CountGrows(run, j + 1, n);
    }
  }

  // ------------------------------------------------------------------
  // That bound is sharp.

  function Extend(run: seq<Moment>, e: Event): seq<Moment> {
    var s := At(run, |run|);
    run + [Moment(s, e, Step(s, e))]
  }

  lemma ExtendedIsRun(run: seq<Moment>, e: Event)
    requires IsRun(run)
    ensures var longer := Extend(run, e);
            IsRun(longer) && At(longer, |longer|) == Step(At(run, |run|), e).state
            && (forall n :: 0 <= n < |run| ==> longer[n] == run[n])
            && longer[|run|].event == e && longer[|run|].outcome == Step(At(run, |run|), e)
  {
    var longer := Extend(run, e);
    forall n | 0 <= n < |longer| ensures StepAt(longer, n) {
      if n < |run| { assert StepAt(run, n); }
    }
  }

  function ScanToken(folder: string, cycle: nat): Token { Token((cycle + 2) % UINT64, 1, SurfaceScan, folder, 0) }

  /** One more scan, begun and failed. */
  function OneMore(run: seq<Moment>, folder: string, k: nat): seq<Moment> {
    Extend(Extend(run, BeginSurface(0, None)), CompleteSurface(ScanToken(folder, k), false))
  }

  /** The folder is selected, then k scans are begun and fail. */
  function FailedScans(folder: string, k: nat): (run: seq<Moment>)
    ensures |run| == 1 + 2 * k
  {
    if k == 0 then Extend([], SelectFolder(folder))
    else OneMore(FailedScans(folder, k - 1), folder, k - 1)
  }

  function ReadyState(folder: string, generation: nat): State {
    State(FolderReady, folder, 1, generation, None, None, false, false)
  }

  lemma ScanSteps(folder: string, k: nat, successful: bool)
    ensures var o := Step(ReadyState(folder, (k + 1) % UINT64), BeginSurface(0, None));
            o.reply == Issued(ScanToken(folder, k))
            && Step(o.state, CompleteSurface(ScanToken(folder, k), successful)).reply == Accepted(false)
            && Step(o.state, CompleteSurface(ScanToken(folder, k), false)).state == ReadyState(folder, (k + 2) % UINT64)
  {
    IncrementMod(k + 1);
  }

  lemma FolderSelected(folder: string)
    requires !IsBlank(folder)
    ensures IsRun(FailedScans(folder, 0)) && At(FailedScans(folder, 0), 1) == ReadyState(folder, 1)
  {
    assert IsRun([]);
    ExtendedIsRun([], SelectFolder(folder));
  }

  lemma OneMoreScan(run: seq<Moment>, folder: string, k: nat)
    requires IsRun(run) && At(run, |run|) == ReadyState(folder, (k + 1) % UINT64)
    ensures IsRun(OneMore(run, folder, k))
            && At(OneMore(run, folder, k), |run| + 2) == ReadyState(folder, (k + 2) % UINT64)
    ensures forall n :: 0 <= n < |run| ==> OneMore(run, folder, k)[n] == run[n]
    ensures OneMore(run, folder, k)[|run|].outcome.reply == Issued(ScanToken(folder, k))
    ensures OneMore(run, folder, k)[|run| + 1].outcome.reply == Accepted(false)
  {
    ScanSteps(folder, k, false);
    ExtendedIsRun(run, BeginSurface(0, None));
    var begun := Extend(run, BeginSurface(0, None));
    ExtendedIsRun(begun, CompleteSurface(ScanToken(folder, k), false));
    assert OneMore(run, folder, k)[|run|] == begun[|run|];
  }

  lemma {:induction false} AfterFailedScans(folder: string, k: nat)
    requires !IsBlank(folder)
    ensures IsRun(FailedScans(folder, k))
    ensures At(FailedScans(folder, k), |FailedScans(folder, k)|) == ReadyState(folder, (k + 1) % UINT64)
    ensures k > 0 ==> FailedScans(folder, k)[1].outcome.reply == Issued(ScanToken(folder, 0))
    ensures k > 0 ==> FailedScans(folder, k)[2].outcome.reply == Accepted(false)
  {
    if k == 0 {
      FolderSelected(folder);
    } else {
      AfterFailedScans(folder, k - 1);
      OneMoreScan(FailedScans(folder, k - 1), folder, k - 1);
    }
  }

  /** After 2^64 failed scans the token of the first, long completed one is
      accepted for a new scan: its worker, reporting a second time, would publish. */
  lemma StaleTokenAccepted(folder: string) returns (run: seq<Moment>)
    requires !IsBlank(folder)
    ensures IsRun(run) && |run| >= 5 && Began(run, 1, ScanToken(folder, 0)) && Completed(run, 2)
    ensures var last := |run| - 1;
            run[last].event == CompleteSurface(ScanToken(folder, 0), true) && Completed(run, last)
              && Owner(run, last) == Some(last - 1)
  {
    var k := UINT64;
    var scans := FailedScans(folder, k);
    AfterFailedScans(folder, k);
    ScanSteps(folder, k, true);
    assert ScanToken(folder, k) == ScanToken(folder, 0);
    var begun := Extend(scans, BeginSurface(0, None));
    ExtendedIsRun(scans, BeginSurface(0, None));
    run := Extend(begun, CompleteSurface(ScanToken(folder, 0), true));
    ExtendedIsRun(begun, CompleteSurface(ScanToken(folder, 0), true));
    assert run[|scans|] == begun[|scans|];
  }
}
