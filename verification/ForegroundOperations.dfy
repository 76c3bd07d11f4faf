/**
 The foreground operation as the object whose methods assign its fields. Its
 history is a run of the machine, so that all that holds of runs holds of it.
 */
module ForegroundOperations {
  import opened Bytes
  import opened OperationState
  import opened OperationRuns

  /** The cancel functions called in a run, in order. */
  function CallsIn(run: seq<Moment>): seq<nat> {
    if run == [] then []
    else
      var last := run[|run| - 1].outcome.fired;
      CallsIn(run[..|run| - 1]) + if last.Some? then [last.value] else []
  }

  /** `calls` records the cancel functions called, in order. */
  class Operations {
    var phase: Phase
    var folder: string
    var folderRevision: nat
    var nextGeneration: nat
    var active: Option<Token>
    var cancel: Option<nat>
    var closeRequested: bool
    var allowClose: bool
    var calls: seq<nat>
    ghost var run: seq<Moment>

    function View(): State
      reads this
    {
      State(phase, folder, folderRevision, nextGeneration, active, cancel, closeRequested, allowClose)
    }

    /** The history is a run of the machine that ends in the fields. */
    ghost predicate Valid()
      reads this
    {
      IsRun(run) && View() == At(run, |run|) && calls == CallsIn(run)
    }

    constructor ()
      ensures Valid() && View() == INITIAL && calls == [] && run == []
    {
      phase, folder, folderRevision, nextGeneration := NoFolder, "", 0, 0;
      active, cancel, closeRequested, allowClose, calls := None, None, false, false, [];
      run := [];
    }

    /** One event has been handled: the history is one moment longer, and the new
        fields, the reply and the calls made are those of the machine's step. */
    twostate predicate Stepped(e: Event, reply: Reply)
      reads this
    {
      var outcome := Step(old(View()), e);
      && View() == outcome.state && reply == outcome.reply
      && calls == old(calls) + (if outcome.fired.Some? then [outcome.fired.value] else [])
      && run == old(run) + [Moment(old(View()), e, outcome)]
    }

    /** Enters the event about to be handled into the history. */
    ghost method Record(e: Event)
      requires Valid()
      modifies this`run
      ensures run == old(run) + [Moment(View(), e, Step(View(), e))] && IsRun(run)
      ensures At(run, |run|) == Step(View(), e).state
      ensures CallsIn(run) == calls + (if Step(View(), e).fired.Some? then [Step(View(), e).fired.value] else [])
    {
      ghost var longer := run + [Moment(View(), e, Step(View(), e))];
      forall n | 0 <= n < |longer| ensures StepAt(longer, n) {
        if n < |run| { assert StepAt(run, n); }
      }
      assert longer[..|run|] == run;
      run := longer;
    }

    /** Whatever was asked of the object, an operation is active exactly in the
        busy phases and its token matches kind, folder and revision. */
    lemma AlwaysSound()
      requires Valid()
      ensures Sound(View())
    {
      OperationRuns.AlwaysSound(run, |run|);
    }

    method Select(newFolder: string) returns (reply: Reply)
      requires Valid()
      modifies this
      ensures Valid() && Stepped(SelectFolder(newFolder), reply)
    {
      Record(SelectFolder(newFolder));
      if IsBlank(newFolder) { return FolderRequired; }
      if !CanChangeFolder(phase) { return NotAllowed; }
      InvalidateActiveOperation();
      folderRevision := Increment(folderRevision);
      folder := newFolder;
      phase := FolderReady;
      reply := Done;
    }

    method ResetAll() returns (reply: Reply)
      requires Valid()
      modifies this
      ensures Valid() && Stepped(Reset, reply)
    {
      Record(Reset);
      if !CanChangeFolder(phase) { return NotAllowed; }
      InvalidateActiveOperation();
      folderRevision := Increment(folderRevision);
      folder := "";
      phase := NoFolder;
      reply := Done;
    }

    method Clear() returns (reply: Reply)
      requires Valid()
      modifies this
      ensures Valid() && Stepped(ClearResults, reply)
    {
      Record(ClearResults);
      if phase != ResultsReady { return NotAllowed; }
      phase := SurfaceReady;
      reply := Done;
    }

    method BeginSurfaceScan(startedAt: int, cancelFunction: Option<nat>) returns (reply: Reply)
      requires Valid()
      modifies this
      ensures Valid() && Stepped(BeginSurface(startedAt, cancelFunction), reply)
    {
      Record(BeginSurface(startedAt, cancelFunction));
      if phase != FolderReady { return NotAllowed; }
      var token := BeginOperation(SurfaceScan, SurfaceScanning, startedAt, cancelFunction);
      reply := Issued(token);
    }

    method CompleteSurfaceScan(token: Token, successful: bool) returns (reply: Reply)
      requires Valid()
      modifies this
      ensures Valid() && Stepped(CompleteSurface(token, successful), reply)
    {
      Record(CompleteSurface(token, successful));
      if token.kind != SurfaceScan || !Accepts(View(), token) { return Stale; }
      var wasCancelling := phase == SurfaceCancelling;
      ClearActiveOperation();
      phase := if successful && !wasCancelling then SurfaceReady else FolderReady;
      reply := Accepted(false);
    }

    method BeginDuplicateScan(startedAt: int, cancelFunction: Option<nat>) returns (reply: Reply)
      requires Valid()
      modifies this
      ensures Valid() && Stepped(BeginDuplicate(startedAt, cancelFunction), reply)
    {
      Record(BeginDuplicate(startedAt, cancelFunction));
      if phase != SurfaceReady && phase != ResultsReady { return NotAllowed; }
      var token := BeginOperation(DuplicateScan, DuplicateScanning, startedAt, cancelFunction);
      reply := Issued(token);
    }

    method CompleteDuplicateScan(token: Token, successful: bool) returns (reply: Reply)
      requires Valid()
      modifies this
      ensures Valid() && Stepped(CompleteDuplicate(token, successful), reply)
    {
      Record(CompleteDuplicate(token, successful));
      if token.kind != DuplicateScan || !Accepts(View(), token) { return Stale; }
      var wasCancelling := phase == DuplicateCancelling;
      ClearActiveOperation();
      phase := if successful && !wasCancelling then ResultsReady else SurfaceReady;
      reply := Accepted(false);
    }

    method RequestScanCancellation() returns (reply: Reply)
      requires Valid()
      modifies this
      ensures Valid() && Stepped(CancelScan, reply)
    {
      Record(CancelScan);
      match phase {
        case SurfaceScanning => phase := SurfaceCancelling;
        case DuplicateScanning => phase := DuplicateCancelling;
        case _ => return NotAllowed;
      }
      InvokeCancellation();
      reply := Done;
    }

    method BeginReportExport(startedAt: int, cancelFunction: Option<nat>) returns (reply: Reply)
      requires Valid()
      modifies this
      ensures Valid() && Stepped(BeginExport(startedAt, cancelFunction), reply)
    {
      Record(BeginExport(startedAt, cancelFunction));
      if phase != ResultsReady { return NotAllowed; }
      var token := BeginOperation(Export, Exporting, startedAt, cancelFunction);
      reply := Issued(token);
    }

    method RequestExportCancellation() returns (reply: Reply)
      requires Valid()
      modifies this
      ensures Valid() && Stepped(CancelExport, reply)
    {
      Record(CancelExport);
      if phase != Exporting { return NotAllowed; }
      phase := ExportCancelling;
      InvokeCancellation();
      reply := Done;
    }

    method CompleteReportExport(token: Token) returns (reply: Reply)
      requires Valid()
      modifies this
      ensures Valid() && Stepped(CompleteExport(token), reply)
    {
      Record(CompleteExport(token));
      if token.kind != Export || !Accepts(View(), token) { return Stale; }
      var closing := phase == ClosingAfterExport;
      ClearActiveOperation();
      if closing {
        phase := Closing;
        allowClose := true;
        return Accepted(true);
      }
      phase := ResultsReady;
      reply := Accepted(false);
    }

    method BeginDeletion(startedAt: int) returns (reply: Reply)
      requires Valid()
      modifies this
      ensures Valid() && Stepped(BeginDelete(startedAt), reply)
    {
      Record(BeginDelete(startedAt));
      if phase != ResultsReady { return NotAllowed; }
      var token := BeginOperation(Delete, Deleting, startedAt, None);
      reply := Issued(token);
    }

    method CompleteDeletion(token: Token) returns (reply: Reply)
      requires Valid()
      modifies this
      ensures Valid() && Stepped(CompleteDelete(token), reply)
    {
      Record(CompleteDelete(token));
      if token.kind != Delete || !Accepts(View(), token) { return Stale; }
      var closing := phase == ClosingAfterDelete;
      ClearActiveOperation();
      if closing {
        phase := Closing;
        allowClose := true;
        return Accepted(true);
      }
      phase := ResultsReady;
      reply := Accepted(false);
    }

    method RequestWindowClose() returns (reply: Reply)
      requires Valid()
      modifies this
      ensures Valid() && Stepped(RequestClose, reply)
    {
      Record(RequestClose);
      reply := DecideClose();
    }

    method DecideClose() returns (reply: Reply)
      modifies this
      ensures View() == Close(old(View())).state && reply == Close(old(View())).reply && run == old(run)
      ensures var fired := Close(old(View())).fired; calls == old(calls) + if fired.Some? then [fired.value] else []
    {
      if allowClose { return CloseNow; }
      closeRequested := true;
      if phase == Exporting || phase == ExportCancelling {
        phase := ClosingAfterExport;
        InvokeCancellation();
        return CloseDeferred;
      }
      if phase == ClosingAfterExport || phase == ClosingAfterDelete { return CloseDeferred; }
      if phase == Deleting {
        phase := ClosingAfterDelete;
        return CloseDeferred;
      }
      InvalidateActiveOperation();
      phase := Closing;
      allowClose := true;
      reply := CloseNow;
    }

    method BeginOperation(kind: Kind, newPhase: Phase, startedAt: int, cancelFunction: Option<nat>)
      returns (token: Token)
      modifies this
      ensures run == old(run)
      ensures View() == Begin(old(View()), kind, newPhase, startedAt, cancelFunction).state
      ensures token == NextToken(old(View()), kind, startedAt) && calls == old(calls)
    {
      nextGeneration := Increment(nextGeneration);
      token := Token(nextGeneration, folderRevision, kind, folder, startedAt);
      active := Some(token);
      cancel := cancelFunction;
      phase := newPhase;
    }

    method InvalidateActiveOperation()
      modifies this
      ensures View() == Invalidated(old(View())) && run == old(run)
      ensures calls == old(calls) + (if old(cancel).Some? then [old(cancel).value] else [])
    {
      InvokeCancellation();
      active := None;
      nextGeneration := Increment(nextGeneration);
    }

    method ClearActiveOperation()
      modifies this`active, this`cancel
      ensures active == None && cancel == None
    {
      active := None;
      cancel := None;
    }

    method InvokeCancellation()
      modifies this`cancel, this`calls
      ensures cancel == None
      ensures calls == old(calls) + (if old(cancel).Some? then [old(cancel).value] else [])
    {
      var held := cancel;
      cancel := None;
      if held.Some? { calls := calls + [held.value]; }
    }
  }
}
