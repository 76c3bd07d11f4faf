/**
 Which preview result may still be shown: only that of the newest request, not
 invalidated since, of the current folder revision.
 */
module PreviewGenerations {
  import opened OperationState

  datatype PreviewToken = PreviewToken(generation: nat, modelRevision: nat, folderRevision: nat)

  datatype Previews = Previews(nextGeneration: nat, modelRevision: nat, active: PreviewToken, hasActive: bool)

  datatype Request = Begin(folderRevision: nat) | Invalidate

  const NO_TOKEN := PreviewToken(0, 0, 0)

  const NO_PREVIEWS := Previews(0, 0, NO_TOKEN, false)

  function StepOf(s: Previews, r: Request): Previews {
    var generation := Increment(s.nextGeneration);
    match r
    case Begin(folderRevision) =>
      s.(nextGeneration := generation, active := PreviewToken(generation, s.modelRevision, folderRevision),
         hasActive := true)
    case Invalidate =>
      Previews(generation, Increment(s.modelRevision), NO_TOKEN, false)
  }

  predicate AcceptsPreview(s: Previews, token: PreviewToken, folderRevision: nat) {
    s.hasActive && s.active == token && token.modelRevision == s.modelRevision && token.folderRevision == folderRevision
  }

  function After(requests: seq<Request>, n: nat): Previews
    requires n <= |requests|
  {
    if n == 0 then NO_PREVIEWS else StepOf(After(requests, n - 1), requests[n - 1])
  }

  /** The token given out for request i. */
  function TokenAt(requests: seq<Request>, i: nat): PreviewToken
    requires i < |requests| && requests[i].Begin?
  {
    After(requests, i + 1).active
  }

  function Invalidations(requests: seq<Request>, n: nat): nat
    requires n <= |requests|
  {
    if n == 0 then 0 else Invalidations(requests, n - 1) + if requests[n - 1] == Invalidate then 1 else 0
  }

  /** Both counters count, modulo their width: the generation every request, the
      revision every invalidation. */
  lemma {:induction false} CountersCount(requests: seq<Request>, n: nat)
    requires n <= |requests|
    ensures After(requests, n).nextGeneration == n % UINT64
    ensures After(requests, n).modelRevision == Invalidations(requests, n) % UINT64
    ensures After(requests, n).hasActive <==> n > 0 && requests[n - 1].Begin?
  {
    if n > 0 {
      CountersCount(requests, n - 1);
      IncrementMod(n - 1);
      IncrementMod(Invalidations(requests, n - 1));
    }
  }

  lemma TokenCounts(requests: seq<Request>, i: nat)
    requires i < |requests| && requests[i].Begin?
    ensures TokenAt(requests, i)
         == PreviewToken((i + 1) % UINT64, Invalidations(requests, i) % UINT64, requests[i].folderRevision)
  {
    CountersCount(requests, i);
    TokenOf(After(requests, i), requests[i], i);
  }

  lemma TokenOf(before: Previews, request: Request, i: nat)
    requires request.Begin? && before.nextGeneration == i % UINT64
    ensures StepOf(before, request).active
         == PreviewToken((i + 1) % UINT64, before.modelRevision, request.folderRevision)
  {
    IncrementMod(i);
  }

  /** A preview is accepted exactly when the last request was to begin one for
      the given folder revision, and the token is that request's. */
  lemma AcceptedExactly(requests: seq<Request>, n: nat, token: PreviewToken, folderRevision: nat)
    requires n <= |requests|
    ensures AcceptsPreview(After(requests, n), token, folderRevision)
       <==> n > 0 && requests[n - 1] == Begin(folderRevision) && token == TokenAt(requests, n - 1)
  {
    CountersCount(requests, n);
    if n > 0 && requests[n - 1].Begin? { TokenCounts(requests, n - 1); CountersCount(requests, n - 1); }
  }

  lemma {:induction false} InvalidationsGrow(requests: seq<Request>, m: nat, n: nat)
    requires m <= n <= |requests|
    ensures Invalidations(requests, m) <= Invalidations(requests, n)
    decreases n
  {
    if m < n { InvalidationsGrow(requests, m, n - 1); }
  }

  /** An older token is accepted in place of the newest exactly when the number
      of requests and the number of invalidations since are both multiples of
      2^64 and the folder revision is the same. */
  lemma OldTokenAcceptedExactly(requests: seq<Request>, i: nat, n: nat, folderRevision: nat)
    requires i + 1 < n <= |requests| && requests[i].Begin?
    ensures AcceptsPreview(After(requests, n), TokenAt(requests, i), folderRevision)
       <==> requests[n - 1] == Begin(folderRevision) && requests[i].folderRevision == folderRevision
            && (n - 1 - i) % UINT64 == 0
            && (Invalidations(requests, n - 1) - Invalidations(requests, i)) % UINT64 == 0
  {
    AcceptedExactly(requests, n, TokenAt(requests, i), folderRevision);
    TokenCounts(requests, i);
    if requests[n - 1].Begin? {
      TokenCounts(requests, n - 1);
      ModDifference(i + 1, n);
      InvalidationsGrow(requests, i, n - 1);
      ModDifference(Invalidations(requests, i), Invalidations(requests, n - 1));
    }
  }

  lemma {:induction false} NothingInvalidated(requests: seq<Request>, n: nat)
    requires n <= |requests| && forall i :: 0 <= i < |requests| ==> requests[i] == Begin(0)
    ensures Invalidations(requests, n) == 0
  {
    if n > 0 { NothingInvalidated(requests, n - 1); }
  }

  /** Such a run: after 2^64 + 1 requests for one folder the first token is accepted
      again. */
  lemma FirstTokenAcceptedAgain() returns (requests: seq<Request>)
    ensures |requests| == UINT64 + 1 && forall i :: 0 <= i < |requests| ==> requests[i] == Begin(0)
    ensures AcceptsPreview(After(requests, |requests|), TokenAt(requests, 0), 0)
  {
    requests := seq(UINT64 + 1, _ => Begin(0));
    NothingInvalidated(requests, UINT64);
    NothingInvalidated(requests, 0);
    OldTokenAcceptedExactly(requests, 0, UINT64 + 1, 0);
  }

  /** So within 2^64 requests no token but the newest is ever accepted. */
  lemma OnlyTheNewest(requests: seq<Request>, i: nat, n: nat, folderRevision: nat)
    requires i < n <= |requests| && requests[i].Begin? && n - 1 - i < UINT64
    requires AcceptsPreview(After(requests, n), TokenAt(requests, i), folderRevision)
    ensures i == n - 1 && requests[i].folderRevision == folderRevision
  {
    if i + 1 < n { OldTokenAcceptedExactly(requests, i, n, folderRevision); }
    AcceptedExactly(requests, n, TokenAt(requests, i), folderRevision);
  }

  // ------------------------------------------------------------------
  // The object.

  class PreviewGenerationState {
    var nextGeneration: nat
    var modelRevision: nat
    var active: PreviewToken
    var hasActive: bool

    function View(): Previews
      reads this
    {
      Previews(nextGeneration, modelRevision, active, hasActive)
    }

    constructor ()
      ensures View() == NO_PREVIEWS
    {
      nextGeneration, modelRevision, active, hasActive := 0, 0, NO_TOKEN, false;
    }

    method BeginPreview(folderRevision: nat) returns (token: PreviewToken)
      modifies this
      ensures View() == StepOf(old(View()), Begin(folderRevision))
      ensures AcceptsPreview(View(), token, folderRevision)
    {
      nextGeneration := Increment(nextGeneration);
      token := PreviewToken(nextGeneration, modelRevision, folderRevision);
      active := token;
      hasActive := true;
    }

    method InvalidatePreviews()
      modifies this
      ensures View() == StepOf(old(View()), Invalidate)
      ensures forall token, folderRevision :: !AcceptsPreview(View(), token, folderRevision)
    {
      nextGeneration := Increment(nextGeneration);
      modelRevision := Increment(modelRevision);
      active := NO_TOKEN;
      hasActive := false;
    }
  }
}
