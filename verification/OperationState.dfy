/**
 The foreground operation of the application: which operation may start, which
 completion may still be accepted, when the window may close, as a step function
 on values.
 */
module OperationState {
  import opened Bytes
  import opened Strings

  const UINT64 := 0x1_0000_0000_0000_0000

  datatype Phase =
    | NoFolder | FolderReady | SurfaceScanning | SurfaceCancelling | SurfaceReady
    | DuplicateScanning | DuplicateCancelling | ResultsReady | Exporting | ExportCancelling
    | Deleting | ClosingAfterExport | ClosingAfterDelete | Closing

  datatype Kind = SurfaceScan | DuplicateScan | Export | Delete | UnknownKind

  datatype Token = Token(generation: nat, folderRevision: nat, kind: Kind, folder: string, startedAt: int)

  /** The fields; a cancel function is known by its identity. */
  datatype State = State(phase: Phase, folder: string, folderRevision: nat, nextGeneration: nat,
                         active: Option<Token>, cancel: Option<nat>, closeRequested: bool, allowClose: bool)

  const INITIAL := State(NoFolder, "", 0, 0, None, None, false, false)

  datatype Event =
    | SelectFolder(folder: string)
    | Reset
    | ClearResults
    | BeginSurface(startedAt: int, cancel: Option<nat>)
    | CompleteSurface(token: Token, successful: bool)
    | BeginDuplicate(startedAt: int, cancel: Option<nat>)
    | CompleteDuplicate(token: Token, successful: bool)
    | CancelScan
    | BeginExport(startedAt: int, cancel: Option<nat>)
    | CancelExport
    | CompleteExport(token: Token)
    | BeginDelete(startedAt: int)
    | CompleteDelete(token: Token)
    | RequestClose

  datatype Reply =
    | Done
    | FolderRequired
    | NotAllowed
    | Issued(token: Token)
    | Accepted(shouldClose: bool)
    | Stale
    | CloseNow
    | CloseDeferred

  /** What one event does: the new state, the reply, the cancel function called. */
  datatype Outcome = Outcome(state: State, reply: Reply, fired: Option<nat>)

  // ------------------------------------------------------------------
  // The pieces.

  /** Nothing is left of the folder name once white space is trimmed. */
  predicate IsBlank(folder: string) { forall i :: 0 <= i < |folder| ==> IsSpace(folder[i]) }

  function Increment(n: nat): nat { (n + 1) % UINT64 }

  lemma IncrementMod(count: nat)
    ensures Increment(count % UINT64) == (count + 1) % UINT64
  {
  }

  lemma ModDifference(a: nat, b: nat)
    requires a <= b
    ensures a % UINT64 == b % UINT64 <==> (b - a) % UINT64 == 0
  {
    var d := b - a;
    assert b % UINT64 == (a % UINT64 + d % UINT64) % UINT64;
  }

  predicate CanChangeFolder(phase: Phase) {
    phase == NoFolder || phase == FolderReady || phase == SurfaceReady || phase == ResultsReady
  }

  /** The kind of operation a phase is about. */
  predicate PhaseOf(kind: Kind, phase: Phase) {
    match kind
    case SurfaceScan => phase == SurfaceScanning || phase == SurfaceCancelling
    case DuplicateScan => phase == DuplicateScanning || phase == DuplicateCancelling
    case Export => phase == Exporting || phase == ExportCancelling || phase == ClosingAfterExport
    case Delete => phase == Deleting || phase == ClosingAfterDelete
    case UnknownKind => false
  }

  predicate Accepts(s: State, token: Token) { s.active == Some(token) && PhaseOf(token.kind, s.phase) }

  function NextToken(s: State, kind: Kind, startedAt: int): Token {
    Token(Increment(s.nextGeneration), s.folderRevision, kind, s.folder, startedAt)
  }

  function Begin(s: State, kind: Kind, phase: Phase, startedAt: int, cancel: Option<nat>): Outcome {
    var token := NextToken(s, kind, startedAt);
    Outcome(s.(nextGeneration := token.generation, active := Some(token), cancel := cancel, phase := phase),
            Issued(token), None)
  }

  /** Dropping the active operation; its cancel function, if still held, is called. */
  function Invalidated(s: State): State {
    s.(active := None, cancel := None, nextGeneration := Increment(s.nextGeneration))
  }

  function Cleared(s: State, phase: Phase): State { s.(active := None, cancel := None, phase := phase) }

  function CompleteScan(s: State, kind: Kind, token: Token, published: bool, ready: Phase, fallback: Phase): Outcome {
    if token.kind != kind || !Accepts(s, token) then Outcome(s, Stale, None)
    else Outcome(Cleared(s, if published then ready else fallback), Accepted(false), None)
  }

  function CompleteGuarded(s: State, kind: Kind, token: Token, closing: Phase): Outcome {
    if token.kind != kind || !Accepts(s, token) then Outcome(s, Stale, None)
    else if s.phase == closing then Outcome(Cleared(s, Closing).(allowClose := true), Accepted(true), None)
    else Outcome(Cleared(s, ResultsReady), Accepted(false), None)
  }

  function Close(s: State): Outcome {
    if s.allowClose then Outcome(s, CloseNow, None)
    else
      var r := s.(closeRequested := true);
      match s.phase
      case Exporting => Outcome(r.(phase := ClosingAfterExport, cancel := None), CloseDeferred, s.cancel)
      case ExportCancelling => Outcome(r.(phase := ClosingAfterExport, cancel := None), CloseDeferred, s.cancel)
      case ClosingAfterExport => Outcome(r, CloseDeferred, None)
      case Deleting => Outcome(r.(phase := ClosingAfterDelete), CloseDeferred, None)
      case ClosingAfterDelete => Outcome(r, CloseDeferred, None)
      case _ => Outcome(Invalidated(r).(phase := Closing, allowClose := true), CloseNow, s.cancel)
  }

  function Step(s: State, e: Event): Outcome {
    match e
    case SelectFolder(folder) =>
      if IsBlank(folder) then Outcome(s, FolderRequired, None)
      else if !CanChangeFolder(s.phase) then Outcome(s, NotAllowed, None)
      else Outcome(Invalidated(s).(folderRevision := Increment(s.folderRevision), folder := folder,
                                   phase := FolderReady),
                   Done, s.cancel)
    case Reset =>
      if !CanChangeFolder(s.phase) then Outcome(s, NotAllowed, None)
      else Outcome(Invalidated(s).(folderRevision := Increment(s.folderRevision), folder := "", phase := NoFolder),
                   Done, s.cancel)
    case ClearResults =>
      if s.phase != ResultsReady then Outcome(s, NotAllowed, None) else Outcome(s.(phase := SurfaceReady), Done, None)
    case BeginSurface(startedAt, cancel) =>
      if s.phase != FolderReady then Outcome(s, NotAllowed, None)
      else Begin(s, SurfaceScan, SurfaceScanning, startedAt, cancel)
    case CompleteSurface(token, successful) =>
      CompleteScan(s, SurfaceScan, token, successful && s.phase != SurfaceCancelling, SurfaceReady, FolderReady)
    case BeginDuplicate(startedAt, cancel) =>
      if s.phase != SurfaceReady && s.phase != ResultsReady then Outcome(s, NotAllowed, None)
      else Begin(s, DuplicateScan, DuplicateScanning, startedAt, cancel)
    case CompleteDuplicate(token, successful) =>
      CompleteScan(s, DuplicateScan, token, successful && s.phase != DuplicateCancelling, ResultsReady, SurfaceReady)
    case CancelScan =>
      if s.phase == SurfaceScanning then Outcome(s.(phase := SurfaceCancelling, cancel := None), Done, s.cancel)
      else if s.phase == DuplicateScanning
        then Outcome(s.(phase := DuplicateCancelling, cancel := None), Done, s.cancel)
      else Outcome(s, NotAllowed, None)
    case BeginExport(startedAt, cancel) =>
      if s.phase != ResultsReady then Outcome(s, NotAllowed, None)
      else Begin(s, Export, Exporting, startedAt, cancel)
    case CancelExport =>
      if s.phase == Exporting then Outcome(s.(phase := ExportCancelling, cancel := None), Done, s.cancel)
      else Outcome(s, NotAllowed, None)
    case CompleteExport(token) => CompleteGuarded(s, Export, token, ClosingAfterExport)
    case BeginDelete(startedAt) =>
      if s.phase != ResultsReady then Outcome(s, NotAllowed, None)
      else Begin(s, Delete, Deleting, startedAt, None)
    case CompleteDelete(token) => CompleteGuarded(s, Delete, token, ClosingAfterDelete)
    case RequestClose => Close(s)
  }
}
