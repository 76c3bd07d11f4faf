/**
 From validation to the disk: what an accepted request can and cannot do to a
 duplicate group.
 */
module RequestGuarantees {
  import opened Records
  import opened FileSystem
  import opened ConsolidationItem
  import opened ConsolidationRequest
  import opened ConsolidationProgress
  import Consolidation
  import opened RecycleRequest

  /** The batch carries out the validated request. */
  ghost predicate CarriesOut(b: Batch, v: ValidRequest) {
    b.hash == v.hash && b.keepers == v.keepers && b.selected == v.selected
  }

  /** Validation guarantees what the consolidation theorems need. */
  lemma AcceptedIsValidated(naming: Naming, r: Request, v: ValidRequest, b: Batch)
    requires Acceptable(naming, r) && Splits(naming, r, v) && CarriesOut(b, v)
    ensures Validated(b)
  {
    AcceptedSplitsGroup(naming, r, v);
  }

  /** Member k is another file than every candidate, its object is unchanged, and
      its path still names it if it did. */
  ghost predicate KeptWhole(b: Batch, w: World, k: FileRecord) {
    var w' := Run(b, w, |b.selected|).0;
    && (forall t :: t in b.selected ==> t.identity != k.identity && t.path != k.path)
    && (k.identity in w.objects ==> k.identity in w'.objects && w'.objects[k.identity] == w.objects[k.identity])
    && (Bound(w, k.path, k.identity) ==> Bound(w', k.path, k.identity))
  }

  /** The group keeps a member. */
  lemma OneMemberKept(naming: Naming, r: Request, v: ValidRequest, b: Batch, w: World) returns (k: FileRecord)
    requires Acceptable(naming, r) && Splits(naming, r, v) && CarriesOut(b, v) && Idle(w)
    ensures k in r.group.files && k in v.keepers && KeptWhole(b, w, k)
  {
    AcceptedIsValidated(naming, r, v, b);
    AcceptedSplitsGroup(naming, r, v);
    k := v.keepers[0];
    if k.identity in w.objects { KeepersSurvive(b, w, k); }
    if Bound(w, k.path, k.identity) { UnselectedStays(b, w, |b.selected|, k.path); }
  }

  /** Carrying out an accepted request, with any failures and cancellations:
      every member that read the group's bytes reads them still, at its own path
      or at the backup path reported for it; every keeper is untouched, and there
      is one; and at most as many candidates are consolidated as members were not
      selected. */
  lemma AcceptedRequestKeepsGroup(naming: Naming, r: Request, v: ValidRequest, b: Batch, w: World, m: FileRecord)
    requires Acceptable(naming, r) && Splits(naming, r, v) && CarriesOut(b, v) && Idle(w) && m in r.group.files
    ensures Reads(b, w, m.path) ==> StillReads(b, Run(b, w, |b.selected|).0, Run(b, w, |b.selected|).1, m.path)
    ensures m !in v.selected && m.identity in w.objects ==>
              m.identity in Run(b, w, |b.selected|).0.objects
              && Run(b, w, |b.selected|).0.objects[m.identity] == w.objects[m.identity]
    ensures exists k :: k in r.group.files && k in v.keepers && KeptWhole(b, w, k)
    ensures CountConsolidated(Run(b, w, |b.selected|).1) + |v.selected| <= |r.group.files|
  {
    AcceptedIsValidated(naming, r, v, b);
    AcceptedSplitsGroup(naming, r, v);
    if Reads(b, w, m.path) { EveryPathStillReads(b, w, |b.selected|, m.path); }
    if m !in v.selected && m.identity in w.objects { KeepersSurvive(b, w, m); }
    var _ := OneMemberKept(naming, r, v, b, w);
    AtMostOnePerKeeper(b, w);
  }

  /** What an accepted request achieves: without faults, on the disk as scanned, the
      items report what is foretold, and all candidates are consolidated if and only if
      no more members were selected than not, and each shares its volume with the
      keeper of its index. */
  lemma AcceptedRequestConsolidates(naming: Naming, r: Request, v: ValidRequest, b: Batch, w: World)
    requires Acceptable(naming, r) && Splits(naming, r, v) && CarriesOut(b, v) && Idle(w)
    requires NoFaults(b) && AsScanned(b, w)
    ensures |b.selected| == |r.selected| && |b.selected| + |b.keepers| == |r.group.files|
    ensures Foretold(b, Run(b, w, |b.selected|).1)
    ensures AllConsolidated(Run(b, w, |b.selected|).1) <==>
              2 * |r.selected| <= |r.group.files|
              && forall i :: 0 <= i < |r.selected| ==> SameVolume(v.keepers[i], v.selected[i])
  {
    AcceptedIsValidated(naming, r, v, b);
    AcceptedSplitsGroup(naming, r, v);
    WithoutDistinct(r.group.files, Identities(r.selected));
    ConsolidatesExactly(b, w);
  }

  function Same(path: Path): Path { path }

  lemma {:induction false} LowerStays(hash: string)
    requires forall i :: 0 <= i < |hash| ==> !('A' <= hash[i] <= 'F')
    ensures LowerHex(hash) == hash
  {
    if hash != "" {
      LowerStays(hash[1..]);
      assert hash == [hash[0]] + hash[1..];
    }
  }

  lemma FarGroupGood(naming: Naming, group: DuplicateGroup)
    requires naming == Naming(Same, Same, Same) && group == DuplicateGroup(1, HASH, [FAR, NEAR, FIRST])
    ensures GoodGroup(naming, group) && GoodCandidates(naming, group.files, [FIRST]) && IsSha256(group.hash)
  {
    assert Stands(naming, FIRST, FIRST) && FIRST in group.files;
  }

  lemma SplitsIf(naming: Naming, r: Request, v: ValidRequest, ids: set<Identity>)
    requires LowerHex(r.group.hash) == v.hash && Represent(naming, r.group.files, r.selected, v.selected)
    requires ids == Identities(r.selected) && Without(r.group.files, ids) == v.keepers
    ensures Splits(naming, r, v)
  {
  }

  lemma OnlyIdentity(m: FileRecord)
    ensures Identities([m]) == {m.identity}
  {
  }

  lemma FarRequestSplits(naming: Naming, files: seq<FileRecord>)
    requires naming == Naming(Same, Same, Same) && files == [FAR, NEAR, FIRST]
    ensures Splits(naming, Request(DuplicateGroup(1, HASH, files), [FIRST]), ValidRequest(HASH, [FIRST], [FAR, NEAR]))
  {
    LowerStays(HASH);
    OnlyIdentity(FIRST);
    FarKept({FIRST.identity});
    FirstStands(naming);
    SplitsIf(naming, Request(DuplicateGroup(1, HASH, files), [FIRST]), ValidRequest(HASH, [FIRST], [FAR, NEAR]),
             {FIRST.identity});
  }

  lemma FirstStands(naming: Naming)
    requires naming == Naming(Same, Same, Same)
    ensures Represent(naming, [FAR, NEAR, FIRST], [FIRST], [FIRST])
  {
    assert Stands(naming, FIRST, FIRST) && FIRST in [FAR, NEAR, FIRST];
  }

  lemma FarGroupAccepted(naming: Naming, r: Request, v: ValidRequest)
    requires naming == Naming(Same, Same, Same)
    requires r == Request(DuplicateGroup(1, HASH, [FAR, NEAR, FIRST]), [FIRST])
    requires v == ValidRequest(HASH, [FIRST], [FAR, NEAR])
    ensures Acceptable(naming, r) && Splits(naming, r, v)
  {
    FarGroupGood(naming, r.group);
    FarRequestSplits(naming, r.group.files);
  }

  lemma FarKept(ids: set<Identity>)
    requires ids == {FIRST.identity}
    ensures Without([FAR, NEAR, FIRST], ids) == [FAR, NEAR]
  {
    assert [FAR, NEAR, FIRST][..2] == [FAR, NEAR] && [FAR, NEAR][..1] == [FAR] && [FAR][..0] == [];
    assert Without([FAR], ids) == [FAR];
    assert Without([FAR, NEAR], ids) == [FAR, NEAR];
  }

  /** One that is accepted, has enough keepers, one of them on the candidate's volume,
      and yet consolidates nothing, since its first keeper is on another volume. */
  lemma AcceptedRequestInVain() returns (naming: Naming, r: Request, v: ValidRequest, b: Batch, w: World)
    ensures Acceptable(naming, r) && Splits(naming, r, v) && CarriesOut(b, v) && Idle(w)
    ensures NoFaults(b) && AsScanned(b, w) && 2 * |r.selected| <= |r.group.files|
    ensures exists k :: k in v.keepers && SameVolume(k, v.selected[0])
    ensures |b.selected| == 1 && Run(b, w, 1).1[0].status == Consolidation.SkippedCrossVolume
  {
    b, w := FarKeeperInTheWay();
    naming, r := Naming(Same, Same, Same), Request(DuplicateGroup(1, HASH, [FAR, NEAR, FIRST]), [FIRST]);
    v := ValidRequest(HASH, [FIRST], [FAR, NEAR]);
    FarGroupAccepted(naming, r, v);
    assert NEAR in v.keepers;
  }
}
