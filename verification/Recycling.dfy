/**
 The recycle policy over an arbitrary adapter: whatever the adapter and other
 processes do, it is only ever called while a verified keeper is held open, and
 that keeper outlives the call.
 */
module Recycling {
  import opened Bytes
  import opened Records
  import opened FileSystem
  import opened Consolidation
  import opened RecycleRequest

  /** What the adapter says it did. */
  datatype Receipt = Receipt(confirmed: bool, identity: Identity, hasDestination: bool)
  datatype Answer = Receives(receipt: Receipt) | Refuses(cancelled: bool)

  datatype Outcome = Recycled | Kept(status: Status)
  datatype RecycleItem = RecycleItem(path: Path, outcome: Outcome)

  /** One call of the adapter: the disk when the keeper and when the candidate had
      been verified, before the call, after it, and when the source path was looked
      at last. */
  datatype Call = Call(target: FileRecord, keeper: FileRecord, found: World, verified: World, before: World,
                       answer: Answer, after: World, last: World)

  /** Read handle of a candidate: it shares deletion with the adapter, not writing. */
  function RecycleHandle(id: Identity): Handle { Handle(id, false, false, true) }

  function VerificationHandle(id: Identity, shareDelete: bool): Handle {
    if shareDelete then RecycleHandle(id) else ReadHandle(id)
  }

  /** Between the two worlds every handle held in the first kept what it guards. */
  ghost predicate Guards(w: World, w': World) {
    && WorldOk(w')
    && (forall h :: h in w.handles && !h.shareWrite ==> Look(w', h.owner).bytes == Look(w, h.owner).bytes)
    && (forall h, p :: h in w.handles && !h.shareDelete && Bound(w, p, h.owner) ==> Bound(w', p, h.owner))
  }

  lemma GuardsChain(a: World, b: World, c: World)
    requires Guards(a, b) && a.handles <= b.handles && Guards(b, c)
    ensures Guards(a, c)
  {
    forall h | h in a.handles && !h.shareWrite ensures Look(c, h.owner).bytes == Look(a, h.owner).bytes {
      assert h in b.handles;
    }
    forall h, p | h in a.handles && !h.shareDelete && Bound(a, p, h.owner) ensures Bound(c, p, h.owner) {
      assert h in b.handles && Bound(b, p, h.owner);
    }
  }

  ghost predicate KeeperHolds(sha: Content -> string, hash: string, k: FileRecord, w: World) {
    Bound(w, k.path, k.identity) && sha(Look(w, k.identity).bytes) == hash
  }

  /** The adapter was called with a verified candidate in its hands and a
      verified keeper, another object, held open, each found as its record says,
      with one name and no stream; the keeper is still there,
      byte for byte, when the call and the look at the source path are over. */
  ghost predicate Safe(sha: Content -> string, hash: string, keepers: seq<FileRecord>, c: Call) {
    && c.keeper in keepers && c.keeper.identity != c.target.identity
    && AsRecorded(c.found, c.keeper) && KeeperHolds(sha, hash, c.keeper, c.found)
    && AsRecorded(c.verified, c.target) && KeeperHolds(sha, hash, c.target, c.verified)
    && c.before.handles == {ReadHandle(c.keeper.identity), RecycleHandle(c.target.identity)}
    && KeeperHolds(sha, hash, c.keeper, c.before)
    && sha(Look(c.before, c.target.identity).bytes) == hash
    && KeeperHolds(sha, hash, c.keeper, c.after) && KeeperHolds(sha, hash, c.keeper, c.last)
    && Look(c.last, c.keeper.identity).bytes == Look(c.before, c.keeper.identity).bytes
  }

  /** Every name, except of the files given, still names its file, with its bytes. */
  ghost predicate SparesOthers(w: World, w': World, files: set<Identity>) {
    forall p :: p in w.names && w.names[p] !in files ==>
      Bound(w', p, w.names[p]) && Look(w', w.names[p]).bytes == Look(w, w.names[p]).bytes
  }

  lemma SparesChain(a: World, b: World, c: World, files: set<Identity>, more: set<Identity>)
    requires SparesOthers(a, b, files) && SparesOthers(b, c, more)
    ensures SparesOthers(a, c, files + more)
  {
    forall p | p in a.names && a.names[p] !in files + more
      ensures Bound(c, p, a.names[p]) && Look(c, a.names[p]).bytes == Look(a, a.names[p]).bytes
    {
      assert Bound(b, p, a.names[p]);
    }
  }

  lemma SparedKeeper(sha: Content -> string, hash: string, k: FileRecord, w: World, w': World, files: set<Identity>)
    requires KeeperHolds(sha, hash, k, w) && SparesOthers(w, w', files) && k.identity !in files
    ensures KeeperHolds(sha, hash, k, w')
  {
  }

  /** Others add files at most, and the adapter moves away only its target. */
  ghost predicate Orderly(adversary: (nat, World) -> World, adapter: (nat, World, FileRecord) -> (World, Answer)) {
    && (forall n, w :: WorldOk(w) ==> SparesOthers(w, adversary(n, w), {}))
    && (forall n, w, r :: WorldOk(w) ==> SparesOthers(w, adapter(n, w, r).0, {r.identity}))
  }

  /** The keeper of every call holds the group's bytes. */
  ghost predicate CallsHold(sha: Content -> string, hash: string, calls: seq<Call>, w: World) {
    forall c :: c in calls ==> KeeperHolds(sha, hash, c.keeper, w)
  }

  /** What a request leaves when nobody else gets in the way: only files selected are
      touched, so every keeper that held the group's bytes holds them; and if the
      adapter was called at all, some keeper does. */
  ghost predicate GroupKept(sha: Content -> string, hash: string, keepers: seq<FileRecord>, selected: seq<FileRecord>,
                            calls: seq<Call>, w: World, w': World)
  {
    && SparesOthers(w, w', Identities(selected)) && CallsHold(sha, hash, calls, w')
    && forall k :: k in keepers && KeeperHolds(sha, hash, k, w) ==> KeeperHolds(sha, hash, k, w')
  }

  lemma OneMoreKept(sha: Content -> string, hash: string, keepers: seq<FileRecord>, selected: seq<FileRecord>,
                    calls: seq<Call>, w: World, w': World, w'': World, target: FileRecord, more: seq<Call>)
    requires GroupKept(sha, hash, keepers, selected, calls, w, w') && SparesOthers(w', w'', {target.identity})
    requires forall k :: k in keepers ==> k.identity != target.identity
    requires (forall c :: c in calls ==> c.keeper in keepers) && CallsHold(sha, hash, more, w'')
    ensures GroupKept(sha, hash, keepers, selected + [target], calls + more, w, w'')
  {
    SparesChain(w, w', w'', Identities(selected), {target.identity});
    assert Identities(selected + [target]) == Identities(selected) + {target.identity};
    forall k | k in keepers && KeeperHolds(sha, hash, k, w') ensures KeeperHolds(sha, hash, k, w'') {
      SparedKeeper(sha, hash, k, w', w'', {target.identity});
    }
  }

  predicate ReceiptFits(r: Receipt, target: FileRecord) {
    r.confirmed && r.identity == target.identity && r.hasDestination
  }

  /** The adapter confirmed this very object and the source path was seen empty. */
  predicate Confirmed(c: Call) {
    c.answer.Receives? && ReceiptFits(c.answer.receipt, c.target) && c.target.path !in c.last.names
  }

  /** What a call leads to: `check` is how the context check after a fitting
      receipt ends, `look` how the look at the source path does. */
  function OutcomeOf(c: Call, check: Choice, look: Choice): Outcome {
    if c.answer.Refuses? then Kept(if c.answer.cancelled then Cancelled else Failed)
    else if !ReceiptFits(c.answer.receipt, c.target) then Kept(Failed)
    else if check == Fail(ContextDone) then Kept(Cancelled)
    else if c.target.path in c.last.names || (look.Fail? && look.error != NotExist) then Kept(Failed)
    else Recycled
  }

  /** Why an item ended as it did. */
  datatype Why =
    | NoKeeper(errors: seq<Error>)   // why each keeper tried did not verify
    | BadCandidate(error: Error)
    | Stopped
    | Called(call: Call, check: Choice, look: Choice)

  predicate SomeStatus(errors: seq<Error>, status: Status) { exists e :: e in errors && StatusOf(e) == status }

  /** The status of a search without a keeper: cancellation before a changed
      keeper, that before a protected one, that before any other failure. */
  function SearchStatus(errors: seq<Error>): Status {
    if SomeStatus(errors, Cancelled) then Cancelled
    else if SomeStatus(errors, SkippedChanged) then SkippedChanged
    else if SomeStatus(errors, SkippedProtected) then SkippedProtected
    else Failed
  }

  function OutcomeFor(why: Why): Outcome {
    match why
    case NoKeeper(errors) => Kept(SearchStatus(errors))
    case BadCandidate(error) => Kept(StatusOf(error))
    case Stopped => Kept(Cancelled)
    case Called(call, check, look) => OutcomeOf(call, check, look)
  }

  /** Only a confirmed call is reported as recycled. */
  lemma RecycledIsConfirmed(why: Why)
    requires OutcomeFor(why) == Recycled
    ensures why.Called? && Confirmed(why.call)
  {
  }

  /** And exactly then, if the context was not done and the look went well; what is
      reported cancelled was, and every other call counts as failed. */
  lemma OutcomeExactly(why: Why)
    ensures OutcomeFor(why) == Recycled <==>
              why.Called? && Confirmed(why.call) && why.check != Fail(ContextDone)
              && (why.look.Go? || why.look.error == NotExist)
    ensures OutcomeFor(why) == Kept(Cancelled) <==>
              match why
              case NoKeeper(errors) => ContextDone in errors
              case BadCandidate(error) => error == ContextDone
              case Stopped => true
              case Called(call, check, look) =>
                if call.answer.Refuses? then call.answer.cancelled
                else ReceiptFits(call.answer.receipt, call.target) && check == Fail(ContextDone)
    ensures why.Called? ==> OutcomeFor(why) in {Recycled, Kept(Cancelled), Kept(Failed)}
    ensures why.NoKeeper? && ContextDone !in why.errors ==>
              OutcomeFor(why) == Kept(if Changed in why.errors || NotExist in why.errors then SkippedChanged
                                      else if exists e :: e in why.errors && e in {HardLinked, NamedStream, Reparse}
                                      then SkippedProtected else Failed)
    ensures why.BadCandidate? && why.error in {HardLinked, NamedStream, Reparse} ==>
              OutcomeFor(why) == Kept(SkippedProtected)
    ensures why.BadCandidate? && why.error in {Changed, NotExist} ==> OutcomeFor(why) == Kept(SkippedChanged)
  {
  }

  /** A held keeper survives whatever the share modes let others do. */
  lemma HeldKeeperStays(sha: Content -> string, hash: string, k: FileRecord, w: World, w': World)
    requires ReadHandle(k.identity) in w.handles && KeeperHolds(sha, hash, k, w) && Guards(w, w')
    ensures KeeperHolds(sha, hash, k, w') && Look(w', k.identity).bytes == Look(w, k.identity).bytes
  {
  }

  lemma OneErrorMore(errors: seq<Error>, e: Error)
    ensures forall status :: SomeStatus(errors + [e], status) <==> SomeStatus(errors, status) || StatusOf(e) == status
  {
    forall status ensures SomeStatus(errors + [e], status) <==> SomeStatus(errors, status) || StatusOf(e) == status {
      assert e in errors + [e];
      if SomeStatus(errors, status) {
        var x :| x in errors && StatusOf(x) == status;
        assert x in errors + [e];
      }
    }
  }

  /** The calls entered for one candidate. */
  ghost predicate Entered(sha: Content -> string, hash: string, keepers: seq<FileRecord>, before: seq<Call>,
                          after: seq<Call>,
                          target: FileRecord, why: Why)
  {
    if why.Called? then after == before + [why.call] && why.call.target == target && Safe(sha, hash, keepers, why.call)
    else after == before
  }

  /** The adapter calls among the reasons, in order. */
  ghost function CallsOf(reasons: seq<Why>): seq<Call> {
    if reasons == [] then []
    else
      var last := reasons[|reasons| - 1];
      CallsOf(reasons[..|reasons| - 1]) + if last.Called? then [last.call] else []
  }

  /** The item of a candidate; if its adapter call was made, it was safe. */
  ghost predicate Accounted(sha: Content -> string, hash: string, keepers: seq<FileRecord>, target: FileRecord,
                            item: RecycleItem, why: Why)
  {
    && item == RecycleItem(target.path, OutcomeFor(why))
    && (why.Called? ==> why.call.target == target && Safe(sha, hash, keepers, why.call))
  }

  /** One item for each candidate, in order. */
  ghost predicate AllAccounted(sha: Content -> string, hash: string, keepers: seq<FileRecord>, targets: seq<FileRecord>,
                               items: seq<RecycleItem>, reasons: seq<Why>)
  {
    |items| == |reasons| == |targets|
    && forall i :: 0 <= i < |items| ==> Accounted(sha, hash, keepers, targets[i], items[i], reasons[i])
  }

  lemma OneMoreAccounted(sha: Content -> string, hash: string, keepers: seq<FileRecord>, targets: seq<FileRecord>,
                         items: seq<RecycleItem>, reasons: seq<Why>, target: FileRecord, item: RecycleItem, why: Why)
    requires AllAccounted(sha, hash, keepers, targets, items, reasons)
             && Accounted(sha, hash, keepers, target, item, why)
    ensures AllAccounted(sha, hash, keepers, targets + [target], items + [item], reasons + [why])
    ensures CallsOf(reasons + [why]) == CallsOf(reasons) + (if why.Called? then [why.call] else [])
  {
    assert (reasons + [why])[..|reasons|] == reasons;
  }

  /** Every call made was a safe one. */
  lemma {:induction false} AllCallsSafe(sha: Content -> string, hash: string, keepers: seq<FileRecord>,
                                        targets: seq<FileRecord>, items: seq<RecycleItem>, reasons: seq<Why>)
    requires AllAccounted(sha, hash, keepers, targets, items, reasons)
    ensures forall c :: c in CallsOf(reasons) ==> Safe(sha, hash, keepers, c)
  {
    if reasons != [] {
      var n := |reasons| - 1;
      AllCallsSafe(sha, hash, keepers, targets[..n], items[..n], reasons[..n]);
      assert Accounted(sha, hash, keepers, targets[n], items[n], reasons[n]);
    }
  }

  class Recycler {
    const sha: Content -> string
    const hash: string
    const keepers: seq<FileRecord>
    const choices: nat -> Choice
    const adversary: (nat, World) -> World
    const adapter: (nat, World, FileRecord) -> (World, Answer)
    var clock: nat
    var world: World
    ghost var calls: seq<Call>

    ghost predicate Valid()
      reads this
    {
      && WorldOk(world)
      && (forall n, w :: WorldOk(w) ==> Interferes(w, adversary(n, w)))
      && (forall n, w, r :: WorldOk(w) ==> Interferes(w, adapter(n, w, r).0))
    }

    constructor (sha: Content -> string, hash: string, keepers: seq<FileRecord>, choices: nat -> Choice,
                 adversary: (nat, World) -> World, adapter: (nat, World, FileRecord) -> (World, Answer), world: World)
      requires WorldOk(world) && world.handles == {}
      requires forall n, w :: WorldOk(w) ==> Interferes(w, adversary(n, w))
      requires forall n, w, r :: WorldOk(w) ==> Interferes(w, adapter(n, w, r).0)
      ensures Valid() && this.world == world && calls == []
      ensures this.sha == sha && this.hash == hash && this.keepers == keepers
      ensures this.adversary == adversary && this.adapter == adapter
    {
      this.sha, this.hash, this.keepers, this.choices, this.adversary, this.adapter := sha, hash, keepers, choices,
        adversary, adapter;
      this.world, clock, calls := world, 0, [];
    }

    /** Others act; then the end of our next call is known. */
    method Await() returns (c: Choice)
      requires Valid()
      modifies this`clock, this`world
      ensures Valid() && world.handles == old(world.handles) && Guards(old(world), world)
      ensures c == choices(old(clock)) && clock == old(clock) + 1
      ensures Orderly(adversary, adapter) ==> SparesOthers(old(world), world, {})
    {
      c, world, clock := choices(clock), adversary(clock, world), clock + 1;
    }

    /** Inspects and hashes an opened file. */
    method VerifyOpened(r: FileRecord, file: Identity) returns (err: Option<Error>)
      requires Valid()
      modifies this`clock, this`world
      ensures Valid() && Guards(old(world), world) && world.handles == old(world.handles)
      ensures err.None? ==> file == r.identity && AsRecorded(world, r) && KeeperHolds(sha, hash, r, world)
      ensures Orderly(adversary, adapter) ==> SparesOthers(old(world), world, {})
    {
      ghost var first := world;
      var c := Await();
      var seen := SnapshotOf(world, file);
      err := if c.Fail? then Some(c.error) else Consolidation.Refusal(r, seen);
      RefusedUnlessAsRecorded(r, seen);
      if err.Some? { return; }

      ghost var inspected := world;
      c := Await();
      GuardsChain(first, inspected, world);
      if Orderly(adversary, adapter) { SparesChain(first, inspected, world, {}, {}); }
      if c.Fail? {
        err := Some(c.error);
      } else if SnapshotOf(world, file) != seen || !Bound(world, r.path, file) || sha(Look(world, file).bytes) != hash {
        err := Some(Changed);
      } else {
        SeenExactly(world, r, file);
      }
    }

    /** Opens a record and keeps the handle only if everything verifies. */
    method OpenVerifiedRecord(r: FileRecord, shareDelete: bool) returns (err: Option<Error>)
      requires Valid()
      modifies this`clock, this`world
      ensures Valid() && Guards(old(world), world)
      ensures err.Some? ==> world.handles == old(world.handles)
      ensures err.None? ==> world.handles == old(world.handles) + {VerificationHandle(r.identity, shareDelete)}
                            && AsRecorded(world, r) && KeeperHolds(sha, hash, r, world)
      ensures Orderly(adversary, adapter) ==> SparesOthers(old(world), world, {})
    {
      ghost var first := world;
      var held := world.handles;
      var c := Await();
      if c.Fail? { return Some(c.error); }
      if r.path !in world.names { return Some(NotExist); }
      var file := world.names[r.path];
      var handle := VerificationHandle(file, shareDelete);
      if !CanOpen(world, handle) { return Some(OtherError); }
      world := Open(world, handle);

      ghost var unread := world;
      err := VerifyOpened(r, file);
      GuardsChain(first, unread, world);
      if err.Some? { world := world.(handles := held); }
    }

    /** The first keeper that verifies, its handle held, those before it having
        failed; otherwise the status of the whole search, cut short by a
        cancellation. */
    method OpenVerifiedKeeper() returns (status: Option<Status>, keeper: nat, ghost errors: seq<Error>)
      requires Valid() && world.handles == {}
      modifies this`clock, this`world
      ensures Valid()
      ensures status.Some? ==> world.handles == {} && status.value == SearchStatus(errors)
                               && |errors| <= |keepers| && (|errors| == |keepers| || status.value == Cancelled)
      ensures status.None? ==> keeper == |errors| < |keepers| && AsRecorded(world, keepers[keeper])
                               && KeeperHolds(sha, hash, keepers[keeper], world)
                               && world.handles == {ReadHandle(keepers[keeper].identity)}
                               && !SomeStatus(errors, Cancelled)
      ensures Orderly(adversary, adapter) ==> SparesOthers(old(world), world, {})
    {
      var sawChanged, sawProtected := false, false;
      keeper, errors := 0, [];
      while keeper < |keepers|
        invariant Valid() && world.handles == {} && keeper <= |keepers| && |errors| == keeper
        invariant !SomeStatus(errors, Cancelled)
        invariant Orderly(adversary, adapter) ==> SparesOthers(old(world), world, {})
        invariant sawChanged == SomeStatus(errors, SkippedChanged)
                  && sawProtected == SomeStatus(errors, SkippedProtected)
      {
        var err := OpenVerifiedRecord(keepers[keeper], false);
        if err.None? { return None, keeper, errors; }
        OneErrorMore(errors, err.value);
        errors := errors + [err.value];
        match StatusOf(err.value) {
          case Cancelled => return Some(Cancelled), keeper, errors;
          case SkippedChanged => sawChanged := true;
          case SkippedProtected => sawProtected := true;
          case _ =>
        }
        keeper := keeper + 1;
      }
      status := Some(if sawChanged then SkippedChanged else if sawProtected then SkippedProtected else Failed);
    }

    /** Nothing of the candidate may still be found at its path. */
    method VerifySourcePathAbsent(target: FileRecord) returns (ok: bool)
      requires Valid()
      modifies this`clock, this`world
      ensures Valid() && world.handles == old(world.handles) && Guards(old(world), world)
      ensures var look := choices(old(clock));
              ok <==> target.path !in world.names && (look.Go? || look.error == NotExist)
      ensures Orderly(adversary, adapter) ==> SparesOthers(old(world), world, {})
    {
      var c := Await();
      ok := target.path !in world.names && (c.Go? || c.error == NotExist);
    }

    /** The adapter call and all that is checked after it, both handles held. */
    method CallAdapter(keeper: FileRecord, target: FileRecord, ghost found: World, ghost verified: World)
      returns (outcome: Outcome, ghost call: Call)
      requires AsRecorded(found, keeper) && KeeperHolds(sha, hash, keeper, found)
      requires AsRecorded(verified, target) && KeeperHolds(sha, hash, target, verified)
      requires Valid() && keeper in keepers && keeper.identity != target.identity
      requires world.handles == {ReadHandle(keeper.identity), RecycleHandle(target.identity)}
      requires KeeperHolds(sha, hash, keeper, world) && sha(Look(world, target.identity).bytes) == hash
      modifies this
      ensures Valid() && calls == old(calls) + [call]
      ensures Safe(sha, hash, keepers, call) && call.target == target && call.last == world
      ensures outcome == OutcomeOf(call, choices(old(clock) + 1), choices(old(clock) + 2))
      ensures Orderly(adversary, adapter) ==> SparesOthers(old(world), world, {target.identity})
    {
      ghost var before := world;
      var (moved, answer) := adapter(clock, world, target);
      world, clock := moved, clock + 1;
      ghost var after := world;
      HeldKeeperStays(sha, hash, keeper, before, after);
      if answer.Refuses? {
        outcome := Kept(if answer.cancelled then Cancelled else Failed);
      } else if !ReceiptFits(answer.receipt, target) {
        outcome := Kept(Failed);
      } else {
        outcome := CheckAfterReceipt(keeper, target);
      }
      call := Call(target, keeper, found, verified, before, answer, after, world);
      calls := calls + [call];
    }

    /** The context check and the look at the source path. */
    method CheckAfterReceipt(keeper: FileRecord, target: FileRecord) returns (outcome: Outcome)
      requires Valid() && ReadHandle(keeper.identity) in world.handles && KeeperHolds(sha, hash, keeper, world)
      modifies this`clock, this`world
      ensures Valid() && KeeperHolds(sha, hash, keeper, world)
      ensures Look(world, keeper.identity).bytes == old(Look(world, keeper.identity).bytes)
      ensures var check, look := choices(old(clock)), choices(old(clock) + 1);
              outcome == if check == Fail(ContextDone) then Kept(Cancelled)
                         else if target.path in world.names || (look.Fail? && look.error != NotExist) then Kept(Failed)
                         else Recycled
      ensures Orderly(adversary, adapter) ==> SparesOthers(old(world), world, {})
    {
      ghost var first := world;
      var c := Await();
      HeldKeeperStays(sha, hash, keeper, first, world);
      if c == Fail(ContextDone) { return Kept(Cancelled); }
      ghost var asked := world;
      var absent := VerifySourcePathAbsent(target);
      HeldKeeperStays(sha, hash, keeper, asked, world);
      outcome := if absent then Recycled else Kept(Failed);
    }

    /** The candidate is verified beside the held keeper, and the context looked at. */
    method OpenCandidate(keeper: FileRecord, target: FileRecord)
      returns (err: Option<Error>, done: bool, ghost verified: World)
      requires Valid() && world.handles == {ReadHandle(keeper.identity)} && KeeperHolds(sha, hash, keeper, world)
      modifies this`clock, this`world
      ensures Valid() && KeeperHolds(sha, hash, keeper, world)
      ensures err.None? ==> world.handles == {ReadHandle(keeper.identity), RecycleHandle(target.identity)}
                            && AsRecorded(verified, target) && KeeperHolds(sha, hash, target, verified)
                            && sha(Look(world, target.identity).bytes) == hash
      ensures Orderly(adversary, adapter) ==> SparesOthers(old(world), world, {})
    {
      ghost var held := world;
      err := OpenVerifiedRecord(target, true);
      HeldKeeperStays(sha, hash, keeper, held, world);
      verified, done := world, false;
      if err.Some? { return; }
      var c := Await();
      HeldKeeperStays(sha, hash, keeper, verified, world);
      assert RecycleHandle(target.identity) in verified.handles;
      done := c == Fail(ContextDone);
    }

    /** A keeper being held: the candidate is verified and handed to the adapter. */
    method RecycleHeld(keeper: FileRecord, target: FileRecord) returns (outcome: Outcome, ghost why: Why)
      requires AsRecorded(world, keeper) && Valid() && keeper in keepers && keeper.identity != target.identity
      requires world.handles == {ReadHandle(keeper.identity)} && KeeperHolds(sha, hash, keeper, world)
      modifies this
      ensures Valid() && outcome == OutcomeFor(why) && Entered(sha, hash, keepers, old(calls), calls, target, why)
      ensures why.Called? ==> why.call.last == world
      ensures Orderly(adversary, adapter) ==> SparesOthers(old(world), world, {target.identity})
    {
      ghost var held := world;
      var err, done, verified := OpenCandidate(keeper, target);
      if err.Some? { return Kept(StatusOf(err.value)), BadCandidate(err.value); }
      if done { return Kept(Cancelled), Stopped; }
      ghost var t := clock;
      ghost var call;
      outcome, call := CallAdapter(keeper, target, held, verified);
      why := Called(call, choices(t + 1), choices(t + 2));
    }

    /** One candidate: at most one adapter call, always a safe one; the item's
        outcome is that of whatever ended it. */
    method RecycleOne(target: FileRecord) returns (item: RecycleItem, ghost why: Why)
      requires Valid() && world.handles == {}
      requires forall k :: k in keepers ==> k.identity != target.identity
      modifies this
      ensures Valid() && world.handles == {}
      ensures Accounted(sha, hash, keepers, target, item, why)
              && Entered(sha, hash, keepers, old(calls), calls, target, why)
      ensures why.Called? ==> KeeperHolds(sha, hash, why.call.keeper, world)
      ensures Orderly(adversary, adapter) ==> SparesOthers(old(world), world, {target.identity})
    {
      var status, index, errors := OpenVerifiedKeeper();
      var outcome;
      if status.Some? {
        outcome, why := Kept(status.value), Why.NoKeeper(errors);
      } else {
        outcome, why := RecycleHeld(keepers[index], target);
        world := world.(handles := {});
      }
      item := RecycleItem(target.path, outcome);
    }

    /** One candidate's turn, unless cancellation is seen before it. */
    method TakeTurn(target: FileRecord) returns (item: RecycleItem, ghost why: Why)
      requires Valid() && world.handles == {}
      requires forall k :: k in keepers ==> k.identity != target.identity
      modifies this
      ensures Valid() && world.handles == {}
      ensures Accounted(sha, hash, keepers, target, item, why)
              && Entered(sha, hash, keepers, old(calls), calls, target, why)
      ensures why.Called? ==> KeeperHolds(sha, hash, why.call.keeper, world)
      ensures Orderly(adversary, adapter) ==> SparesOthers(old(world), world, {target.identity})
    {
      var c := Await();
      if c == Fail(ContextDone) {
        return RecycleItem(target.path, Kept(Cancelled)), Stopped;
      }
      ghost var before, asked := old(world), world;
      item, why := RecycleOne(target);
      if Orderly(adversary, adapter) { SparesChain(before, asked, world, {}, {target.identity}); }
    }

    /** A whole request whose candidates and keepers are different files: the
        adapter calls are those of the items that got that far. Nothing but the
        adapter touches a file of the group. */
    method RecycleSelected(selected: seq<FileRecord>) returns (items: seq<RecycleItem>, ghost reasons: seq<Why>)
      requires Valid() && world.handles == {} && calls == []
      requires forall k, t :: k in keepers && t in selected ==> k.identity != t.identity
      modifies this
      ensures AllAccounted(sha, hash, keepers, selected, items, reasons) && calls == CallsOf(reasons)
      ensures Orderly(adversary, adapter) ==> GroupKept(sha, hash, keepers, selected, calls, old(world), world)
    {
      items, reasons := [], [];
      for i := 0 to |selected|
        invariant Valid() && world.handles == {} && calls == CallsOf(reasons)
        invariant AllAccounted(sha, hash, keepers, selected[..i], items, reasons)
        invariant Orderly(adversary, adapter) ==>
                    GroupKept(sha, hash, keepers, selected[..i], calls, old(world), world)
      {
        ghost var done, before := calls, world;
        var item;
        ghost var why;
        item, why := TakeTurn(selected[i]);
        AllCallsSafe(sha, hash, keepers, selected[..i], items, reasons);
        if Orderly(adversary, adapter) {
          OneMoreKept(sha, hash, keepers, selected[..i], done, old(world), before, world, selected[i],
                      if why.Called? then [why.call] else []);
        }
        OneMoreAccounted(sha, hash, keepers, selected[..i], items, reasons, selected[i], item, why);
        assert selected[..i + 1] == selected[..i] + [selected[i]];
        items, reasons := items + [item], reasons + [why];
      }
      assert selected[..|selected|] == selected;
    }
  }

  /** The recycle policy: an unacceptable request, or one without an adapter, is
      rejected with every item failed and nothing called; an acceptable one is
      carried out with the members selected and the keepers of its split. When others
      leave the files alone, and the adapter all but its target, the group keeps the
      bytes of every keeper, however the calls end. */
  method RecycleExactDuplicates(naming: Naming, r: Request, sha: Content -> string, choices: nat -> Choice,
                                adversary: (nat, World) -> World,
                                adapter: Option<(nat, World, FileRecord) -> (World, Answer)>, world: World)
    returns (items: seq<RecycleItem>, rejected: bool, ghost v: ValidRequest, ghost reasons: seq<Why>,
             ghost calls: seq<Call>, ghost final: World)
    requires WorldOk(world) && world.handles == {}
    requires forall n, w :: WorldOk(w) ==> Interferes(w, adversary(n, w))
    requires adapter.Some? ==> forall n, w, t :: WorldOk(w) ==> Interferes(w, adapter.value(n, w, t).0)
    ensures rejected <==> !Acceptable(naming, r) || adapter.None?
    ensures rejected ==> calls == [] && final == world
    ensures rejected ==> |items| == |r.selected|
                         && forall i :: 0 <= i < |items| ==> items[i] == RecycleItem(r.selected[i].path, Kept(Failed))
    ensures !rejected ==> Splits(naming, r, v) && AllAccounted(sha, v.hash, v.keepers, v.selected, items, reasons)
    ensures !rejected ==> calls == CallsOf(reasons) && forall c :: c in calls ==> Safe(sha, v.hash, v.keepers, c)
    ensures !rejected && Orderly(adversary, adapter.value) ==>
              GroupKept(sha, v.hash, v.keepers, v.selected, calls, world, final)
  {
    var validated := ValidateRecycleRequest(naming, r);
    v, reasons, calls, final := ValidRequest("", [], []), [], [], world;
    if validated.Err? || adapter.None? {
      items := Rejected(r.selected);
      return items, true, v, reasons, calls, final;
    }
    v := validated.value;
    AcceptedSplitsGroup(naming, r, v);
    var request := validated.value;
    var recycler := new Recycler(sha, request.hash, request.keepers, choices, adversary, adapter.value, world);
    items, reasons := recycler.RecycleSelected(request.selected);
    calls, final := recycler.calls, recycler.world;
    AllCallsSafe(sha, v.hash, v.keepers, v.selected, items, reasons);
    rejected := false;
  }

  method Rejected(selected: seq<FileRecord>) returns (items: seq<RecycleItem>)
    ensures |items| == |selected| && forall i :: 0 <= i < |items| ==>
              items[i] == RecycleItem(selected[i].path, Kept(Failed))
  {
    items := [];
    for i := 0 to |selected|
      invariant |items| == i && forall j :: 0 <= j < i ==> items[j] == RecycleItem(selected[j].path, Kept(Failed))
    {
      items := items + [RecycleItem(selected[i].path, Kept(Failed))];
    }
  }
}
