/**
 Validation of a recycle or consolidation request: what is accepted, and that an
 accepted request splits the group into what is selected and what is kept.
 */
module RecycleRequest {
  import opened Bytes
  import opened Records

  /** Path resolution and case mapping are the platform's: lower-casing decides
      the key of a path, folding whether two paths are the same name. */
  datatype Naming = Naming(clean: Path -> Path, lower: Path -> Path, fold: Path -> Path) {
    function Key(path: Path): Path { lower(clean(path)) }

    predicate SameName(a: Path, b: Path) { fold(clean(a)) == fold(clean(b)) }
  }

  datatype Request = Request(group: DuplicateGroup, selected: seq<FileRecord>)

  datatype ValidRequest = ValidRequest(hash: string, selected: seq<FileRecord>, keepers: seq<FileRecord>)

  datatype RequestError =
    | TooFewMembers | NothingSelected | BadHash | NoStableIdentity | InconsistentSize | ProtectedMember
    | RepeatedPath | RepeatedIdentity | NotAMember | SelectedTwice | IdentityTwice | NothingRetained | NoKeeper

  predicate IsHexDigit(c: char) { '0' <= c <= '9' || 'a' <= c <= 'f' || 'A' <= c <= 'F' }

  /** Hexadecimal for exactly 32 bytes. */
  predicate IsSha256(hash: string) { |hash| == 64 && forall i :: 0 <= i < |hash| ==> IsHexDigit(hash[i]) }

  /** Letters in lower case, everything else as it is. */
  function LowerHex(hash: string): (r: string)
    ensures |r| == |hash| && forall i :: 0 <= i < |r| ==> !('A' <= r[i] <= 'F')
    ensures forall i :: 0 <= i < |r| ==>
              r[i] == hash[i] || (r[i] as int == hash[i] as int + 32 && 'A' <= hash[i] <= 'F')
  {
    if hash == "" then ""
    else [if 'A' <= hash[0] <= 'F' then hash[0] - 'A' + 'a' else hash[0]] + LowerHex(hash[1..])
  }

  predicate SameScannedRecord(naming: Naming, a: FileRecord, b: FileRecord) {
    naming.SameName(a.path, b.path) && a.size == b.size && a.modifiedAt == b.modifiedAt && a.identity == b.identity
    && a.linkCount == b.linkCount && a.namedStreams == b.namedStreams && a.scope == b.scope
  }

  // ------------------------------------------------------------------
  // The policy.

  predicate GoodMember(group: DuplicateGroup, m: FileRecord) {
    m.path != "" && m.identity != NO_IDENTITY && m.size == group.size && m.linkCount == 1 && m.namedStreams == 0
  }

  predicate DistinctKeys(naming: Naming, files: seq<FileRecord>) {
    forall i, j :: 0 <= i < j < |files| ==> naming.Key(files[i].path) != naming.Key(files[j].path)
  }

  predicate DistinctIdentities(files: seq<FileRecord>) {
    forall i, j :: 0 <= i < j < |files| ==> files[i].identity != files[j].identity
  }

  predicate GoodMembers(naming: Naming, group: DuplicateGroup, files: seq<FileRecord>) {
    (forall m :: m in files ==> GoodMember(group, m)) && DistinctKeys(naming, files) && DistinctIdentities(files)
  }

  predicate GoodGroup(naming: Naming, group: DuplicateGroup) { GoodMembers(naming, group, group.files) }

  /** The candidate stands for member m. */
  predicate Stands(naming: Naming, candidate: FileRecord, m: FileRecord) {
    naming.Key(candidate.path) == naming.Key(m.path) && SameScannedRecord(naming, m, candidate)
  }

  predicate IsMember(naming: Naming, files: seq<FileRecord>, candidate: FileRecord) {
    exists m :: m in files && Stands(naming, candidate, m)
  }

  predicate GoodCandidates(naming: Naming, files: seq<FileRecord>, candidates: seq<FileRecord>) {
    (forall c :: c in candidates ==> IsMember(naming, files, c)) && DistinctKeys(naming, candidates)
  }

  predicate GoodSelection(naming: Naming, r: Request) { GoodCandidates(naming, r.group.files, r.selected) }

  /** What a request has to be. */
  predicate Acceptable(naming: Naming, r: Request) {
    |r.group.files| >= 2 && r.selected != [] && IsSha256(r.group.hash)
    && GoodGroup(naming, r.group) && GoodSelection(naming, r) && |r.selected| < |r.group.files|
  }

  function Identities(files: seq<FileRecord>): set<Identity> { set m | m in files :: m.identity }

  /** The members, in group order, whose identity is not among `ids`. */
  function Without(files: seq<FileRecord>, ids: set<Identity>): seq<FileRecord> {
    if files == [] then []
    else
      var n := |files| - 1;
      Without(files[..n], ids) + if files[n].identity in ids then [] else [files[n]]
  }

  /** The members the candidates stand for. */
  ghost predicate Represent(naming: Naming, files: seq<FileRecord>, candidates: seq<FileRecord>,
                            members: seq<FileRecord>) {
    |members| == |candidates|
    && forall i :: 0 <= i < |members| ==> members[i] in files && Stands(naming, candidates[i], members[i])
  }

  /** The accepted form: the members selected, in request order, and the rest. */
  ghost predicate Splits(naming: Naming, r: Request, v: ValidRequest) {
    && v.hash == LowerHex(r.group.hash)
    && Represent(naming, r.group.files, r.selected, v.selected)
    && v.keepers == Without(r.group.files, Identities(r.selected))
  }

  predicate SameKey(naming: Naming, a: FileRecord, b: FileRecord) {
    naming.lower(naming.clean(a.path)) == naming.lower(naming.clean(b.path))
  }

  /** The candidate names the same file and says of it what the member does. */
  predicate SaysTheSame(naming: Naming, m: FileRecord, c: FileRecord) {
    && naming.fold(naming.clean(m.path)) == naming.fold(naming.clean(c.path))
    && c == m.(path := c.path, createdAt := c.createdAt, category := c.category)
  }

  /** The policy written out: a group of two or more under a SHA-256, every member
      with a path, an identity, the group's size, one name and no stream, all at
      different paths and with different identities; and a selection of some but not
      all of them, each standing for a member just as it was scanned, none twice. */
  lemma AcceptableExactly(naming: Naming, r: Request)
    ensures Acceptable(naming, r) <==>
              var files := r.group.files;
              && 1 <= |r.selected| < |files| && 2 <= |files| && |r.group.hash| == 64
              && (forall i :: 0 <= i < 64 ==>
                    var c := r.group.hash[i]; '0' <= c <= '9' || 'a' <= c <= 'f' || 'A' <= c <= 'F')
              && (forall m :: m in files ==> m.path != "" && m.identity != Identity(0, 0) && m.size == r.group.size
                                             && m.linkCount == 1 && m.namedStreams == 0)
              && (forall i, j :: 0 <= i < j < |files| ==>
                    !SameKey(naming, files[i], files[j]) && files[i].identity != files[j].identity)
              && (forall c :: c in r.selected ==>
                    exists m :: m in files && SameKey(naming, c, m) && SaysTheSame(naming, m, c))
              && (forall i, j :: 0 <= i < j < |r.selected| ==> !SameKey(naming, r.selected[i], r.selected[j]))
  {
    forall c | c in r.selected
      ensures IsMember(naming, r.group.files, c)
         <==> exists m :: m in r.group.files && SameKey(naming, c, m) && SaysTheSame(naming, m, c)
    {
      if m :| m in r.group.files && SameKey(naming, c, m) && SaysTheSame(naming, m, c) {
        assert Stands(naming, c, m);
      }
      if m :| m in r.group.files && Stands(naming, c, m) { assert SameKey(naming, c, m); }
    }
    KeysApart(naming, r.group.files);
    KeysApart(naming, r.selected);
  }

  lemma KeysApart(naming: Naming, files: seq<FileRecord>)
    ensures DistinctKeys(naming, files) <==>
              forall i, j :: 0 <= i < j < |files| ==> !SameKey(naming, files[i], files[j])
  {
  }

  // ------------------------------------------------------------------
  // Facts about members.

  lemma SameKeySameMember(naming: Naming, files: seq<FileRecord>, a: FileRecord, b: FileRecord)
    requires DistinctKeys(naming, files) && a in files && b in files && naming.Key(a.path) == naming.Key(b.path)
    ensures a == b
  {
    var i :| 0 <= i < |files| && files[i] == a;
    var j :| 0 <= j < |files| && files[j] == b;
  }

  lemma SameIdentitySameMember(files: seq<FileRecord>, a: FileRecord, b: FileRecord)
    requires DistinctIdentities(files) && a in files && b in files && a.identity == b.identity
    ensures a == b
  {
    var i :| 0 <= i < |files| && files[i] == a;
    var j :| 0 <= j < |files| && files[j] == b;
  }

  lemma {:induction false} CountIdentities(files: seq<FileRecord>)
    requires DistinctIdentities(files)
    ensures |Identities(files)| == |files|
  {
    if files == [] {
      assert Identities(files) == {};
    } else {
      var n := |files| - 1;
      CountIdentities(files[..n]);
      assert files == files[..n] + [files[n]];
      assert Identities(files) == Identities(files[..n]) + {files[n].identity};
      assert files[n].identity !in Identities(files[..n]);
    }
  }

  lemma {:induction false} WithoutExactly(files: seq<FileRecord>, ids: set<Identity>, m: FileRecord)
    ensures m in Without(files, ids) <==> m in files && m.identity !in ids
  {
    if files != [] {
      var n := |files| - 1;
      WithoutExactly(files[..n], ids, m);
      assert files == files[..n] + [files[n]];
    }
  }

  /** Keepers stay in the order of the group. */
  lemma {:induction false} WithoutAppends(a: seq<FileRecord>, b: seq<FileRecord>, ids: set<Identity>)
    ensures Without(a + b, ids) == Without(a, ids) + Without(b, ids)
    decreases |b|
  {
    if b == [] {
      assert a + b == a;
    } else {
      var n := |b| - 1;
      WithoutAppends(a, b[..n], ids);
      assert (a + b)[..|a + b| - 1] == a + b[..n];
    }
  }

  lemma {:induction false} WithoutDistinct(files: seq<FileRecord>, ids: set<Identity>)
    requires DistinctIdentities(files)
    ensures DistinctIdentities(Without(files, ids))
  {
    if files != [] {
      var n := |files| - 1;
      WithoutDistinct(files[..n], ids);
      forall m | m in Without(files[..n], ids) ensures m.identity != files[n].identity {
        WithoutExactly(files[..n], ids, m);
      }
    }
  }

  lemma WithoutCounts(files: seq<FileRecord>, ids: set<Identity>)
    requires DistinctIdentities(files)
    ensures |Without(files, ids)| == |Identities(files) - ids|
  {
    var kept := Without(files, ids);
    WithoutDistinct(files, ids);
    CountIdentities(kept);
    forall m ensures m in kept <==> m in files && m.identity !in ids { WithoutExactly(files, ids, m); }
    assert Identities(kept) == Identities(files) - ids;
  }

  /** Selected candidates with different keys are different physical files. */
  lemma SelectionDistinct(naming: Naming, r: Request)
    requires GoodGroup(naming, r.group) && GoodSelection(naming, r)
    ensures DistinctIdentities(r.selected) && Identities(r.selected) <= Identities(r.group.files)
  {
    forall i, j | 0 <= i < j < |r.selected| ensures r.selected[i].identity != r.selected[j].identity {
      var a, b := r.selected[i], r.selected[j];
      assert IsMember(naming, r.group.files, a) && IsMember(naming, r.group.files, b);
      var m :| m in r.group.files && Stands(naming, a, m);
      var k :| k in r.group.files && Stands(naming, b, k);
      if a.identity == b.identity { SameIdentitySameMember(r.group.files, m, k); }
    }
    forall id | id in Identities(r.selected) ensures id in Identities(r.group.files) {
      var c :| c in r.selected && c.identity == id;
      assert IsMember(naming, r.group.files, c);
      var m :| m in r.group.files && Stands(naming, c, m);
      assert m.identity == id;
    }
  }

  // ------------------------------------------------------------------
  // What acceptance means.

  /** An accepted request splits the group exactly: every member is selected or
      kept and not both, at least one is kept, and no physical file is on both
      sides. */
  lemma AcceptedSplitsGroup(naming: Naming, r: Request, v: ValidRequest)
    requires Acceptable(naming, r) && Splits(naming, r, v)
    ensures forall m :: m in r.group.files <==> m in v.selected || m in v.keepers
    ensures forall m, k :: m in v.selected && k in v.keepers ==> m.identity != k.identity && m.path != k.path
    ensures |v.selected| + |v.keepers| == |r.group.files| && v.keepers != []
    ensures DistinctIdentities(v.selected) && DistinctKeys(naming, v.selected)
  {
    var files, ids := r.group.files, Identities(r.selected);
    SelectionDistinct(naming, r);
    CountIdentities(r.selected);
    CountIdentities(files);
    WithoutCounts(files, ids);
    assert |Identities(files) - ids| == |Identities(files)| - |ids|;
    SelectedMembers(naming, r, v);
    forall m ensures m in files <==> m in v.selected || m in v.keepers {
      WithoutExactly(files, ids, m);
      if m in files && m.identity in ids { SelectedByIdentity(naming, r, v, m); }
    }
    forall m, k | m in v.selected && k in v.keepers ensures m.identity != k.identity && m.path != k.path {
      WithoutExactly(files, ids, k);
      if m.path == k.path { SameKeySameMember(naming, files, m, k); }
    }
  }

  lemma SelectedMembers(naming: Naming, r: Request, v: ValidRequest)
    requires Acceptable(naming, r) && Splits(naming, r, v)
    ensures forall m :: m in v.selected ==> m in r.group.files && m.identity in Identities(r.selected)
    ensures DistinctIdentities(v.selected) && DistinctKeys(naming, v.selected)
  {
    SelectionDistinct(naming, r);
    forall m | m in v.selected ensures m in r.group.files && m.identity in Identities(r.selected) {
      var i :| 0 <= i < |v.selected| && v.selected[i] == m;
      assert Stands(naming, r.selected[i], m) && r.selected[i] in r.selected;
    }
    forall i, j | 0 <= i < j < |v.selected|
      ensures v.selected[i].identity != v.selected[j].identity
              && naming.Key(v.selected[i].path) != naming.Key(v.selected[j].path)
    {
      assert Stands(naming, r.selected[i], v.selected[i]) && Stands(naming, r.selected[j], v.selected[j]);
    }
  }

  lemma SelectedByIdentity(naming: Naming, r: Request, v: ValidRequest, m: FileRecord)
    requires Acceptable(naming, r) && Splits(naming, r, v) && m in r.group.files && m.identity in Identities(r.selected)
    ensures m in v.selected
  {
    var c :| c in r.selected && c.identity == m.identity;
    var i :| 0 <= i < |r.selected| && r.selected[i] == c;
    assert Stands(naming, r.selected[i], v.selected[i]);
    SameIdentitySameMember(r.group.files, v.selected[i], m);
  }

  /** The accepted form is determined by the request. */
  lemma SplitUnique(naming: Naming, r: Request, v: ValidRequest, w: ValidRequest)
    requires Acceptable(naming, r) && Splits(naming, r, v) && Splits(naming, r, w)
    ensures v == w
  {
    forall i | 0 <= i < |r.selected| ensures v.selected[i] == w.selected[i] {
      SameKeySameMember(naming, r.group.files, v.selected[i], w.selected[i]);
    }
    assert v.selected == w.selected;
  }

  // ------------------------------------------------------------------
  // As it runs.

  /** The members by key, a later one replacing an earlier one. */
  function ByPath(naming: Naming, files: seq<FileRecord>): map<Path, FileRecord> {
    if files == [] then map[]
    else
      var n := |files| - 1;
      ByPath(naming, files[..n])[naming.Key(files[n].path) := files[n]]
  }

  function KeysOf(naming: Naming, files: seq<FileRecord>): set<Path> { set m | m in files :: naming.Key(m.path) }

  lemma {:induction false} ByPathExactly(naming: Naming, files: seq<FileRecord>, key: Path)
    ensures key in ByPath(naming, files) <==> key in KeysOf(naming, files)
    ensures key in ByPath(naming, files) ==>
              ByPath(naming, files)[key] in files && naming.Key(ByPath(naming, files)[key].path) == key
  {
    if files != [] {
      var n := |files| - 1;
      ByPathExactly(naming, files[..n], key);
      assert files == files[..n] + [files[n]];
    }
  }

  /** Which guard refuses member m after those in `before`. */
  function MemberError(naming: Naming, group: DuplicateGroup, before: seq<FileRecord>,
                       m: FileRecord): Option<RequestError> {
    if m.path == "" || m.identity == NO_IDENTITY then Some(NoStableIdentity)
    else if m.size != group.size then Some(InconsistentSize)
    else if m.linkCount != 1 || m.namedStreams != 0 then Some(ProtectedMember)
    else if naming.Key(m.path) in KeysOf(naming, before) then Some(RepeatedPath)
    else if m.identity in Identities(before) then Some(RepeatedIdentity)
    else None
  }

  /** The first guard that refuses a member. */
  function MembersError(naming: Naming, group: DuplicateGroup, files: seq<FileRecord>): Option<RequestError> {
    if files == [] then None
    else
      var n := |files| - 1;
      match MembersError(naming, group, files[..n])
      case Some(error) => Some(error)
      case None => MemberError(naming, group, files[..n], files[n])
  }

  lemma LastFresh(naming: Naming, files: seq<FileRecord>, m: FileRecord)
    ensures DistinctKeys(naming, files + [m]) <==>
              DistinctKeys(naming, files) && naming.Key(m.path) !in KeysOf(naming, files)
    ensures DistinctIdentities(files + [m]) <==> DistinctIdentities(files) && m.identity !in Identities(files)
  {
    var longer := files + [m];
    assert longer[..|files|] == files && longer[|files|] == m;
    if DistinctKeys(naming, longer) {
      forall k | k in files ensures naming.Key(k.path) != naming.Key(m.path) {
        var i :| 0 <= i < |files| && files[i] == k;
        assert longer[i] == k;
      }
      forall i, j | 0 <= i < j < |files| ensures naming.Key(files[i].path) != naming.Key(files[j].path) {
        assert longer[i] == files[i] && longer[j] == files[j];
      }
    }
    if DistinctIdentities(longer) {
      forall k | k in files ensures k.identity != m.identity {
        var i :| 0 <= i < |files| && files[i] == k;
        assert longer[i] == k;
      }
      forall i, j | 0 <= i < j < |files| ensures files[i].identity != files[j].identity {
        assert longer[i] == files[i] && longer[j] == files[j];
      }
    }
  }

  lemma OneMoreGood(naming: Naming, group: DuplicateGroup, files: seq<FileRecord>, m: FileRecord)
    ensures GoodMembers(naming, group, files + [m])
       <==> GoodMembers(naming, group, files) && MemberError(naming, group, files, m).None?
  {
    LastFresh(naming, files, m);
    assert forall k :: k in files + [m] <==> k in files || k == m;
    assert GoodMember(group, m) <==> m.path != "" && m.identity != NO_IDENTITY && m.size == group.size
                                     && m.linkCount == 1 && m.namedStreams == 0;
  }

  /** The guards are passed exactly by good members. */
  lemma {:induction false} MembersPass(naming: Naming, group: DuplicateGroup, files: seq<FileRecord>)
    ensures MembersError(naming, group, files).None? <==> GoodMembers(naming, group, files)
  {
    if files != [] {
      var n := |files| - 1;
      MembersPass(naming, group, files[..n]);
      OneMoreGood(naming, group, files[..n], files[n]);
      assert files == files[..n] + [files[n]];
    }
  }

  /** An error once found stays the first one. */
  lemma {:induction false} FirstMemberError(naming: Naming, group: DuplicateGroup, files: seq<FileRecord>, n: nat)
    requires n <= |files| && MembersError(naming, group, files[..n]).Some?
    ensures MembersError(naming, group, files) == MembersError(naming, group, files[..n])
    decreases |files|
  {
    if n < |files| {
      var k := |files| - 1;
      assert files[..k][..n] == files[..n];
      FirstMemberError(naming, group, files[..k], n);
    } else {
      assert files[..n] == files;
    }
  }

  method CheckMember(naming: Naming, group: DuplicateGroup, m: FileRecord, byPath: map<Path, FileRecord>,
                     ids: set<Identity>,
                     ghost before: seq<FileRecord>) returns (error: Option<RequestError>)
    requires byPath == ByPath(naming, before) && ids == Identities(before)
    ensures error == MemberError(naming, group, before, m)
  {
    if m.path == "" || m.identity == NO_IDENTITY { return Some(NoStableIdentity); }
    if m.size != group.size { return Some(InconsistentSize); }
    if m.linkCount != 1 || m.namedStreams != 0 { return Some(ProtectedMember); }
    ByPathExactly(naming, before, naming.Key(m.path));
    if naming.Key(m.path) in byPath { return Some(RepeatedPath); }
    if m.identity in ids { return Some(RepeatedIdentity); }
    error := None;
  }

  lemma OneMore(naming: Naming, files: seq<FileRecord>, n: nat)
    requires n < |files|
    ensures files[..n + 1][..n] == files[..n] && files[..n + 1][n] == files[n]
    ensures Identities(files[..n + 1]) == Identities(files[..n]) + {files[n].identity}
    ensures KeysOf(naming, files[..n + 1]) == KeysOf(naming, files[..n]) + {naming.Key(files[n].path)}
  {
    assert files[..n + 1] == files[..n] + [files[n]];
  }

  method CheckMembers(naming: Naming, group: DuplicateGroup)
    returns (error: Option<RequestError>, byPath: map<Path, FileRecord>, ids: set<Identity>)
    ensures error == MembersError(naming, group, group.files)
    ensures error.None? ==> byPath == ByPath(naming, group.files) && ids == Identities(group.files)
  {
    byPath, ids := map[], {};
    var files := group.files;
    for i := 0 to |files|
      invariant MembersError(naming, group, files[..i]).None?
      invariant byPath == ByPath(naming, files[..i]) && ids == Identities(files[..i])
    {
      OneMore(naming, files, i);
      error := CheckMember(naming, group, files[i], byPath, ids, files[..i]);
      if error.Some? {
        FirstMemberError(naming, group, files, i + 1);
        return;
      }
      byPath := byPath[naming.Key(files[i].path) := files[i]];
      ids := ids + {files[i].identity};
    }
    assert files[..|files|] == files;
    error := None;
  }

  // ------------------------------------------------------------------
  // Candidates.

  /** Which guard refuses candidate c after those in `before`. */
  function CandidateError(naming: Naming, files: seq<FileRecord>, before: seq<FileRecord>,
                          c: FileRecord): Option<RequestError> {
    if !IsMember(naming, files, c) then Some(NotAMember)
    else if naming.Key(c.path) in KeysOf(naming, before) then Some(SelectedTwice)
    else None
  }

  function CandidatesError(naming: Naming, files: seq<FileRecord>, candidates: seq<FileRecord>): Option<RequestError> {
    if candidates == [] then None
    else
      var n := |candidates| - 1;
      match CandidatesError(naming, files, candidates[..n])
      case Some(error) => Some(error)
      case None => CandidateError(naming, files, candidates[..n], candidates[n])
  }

  lemma {:induction false} CandidatesPass(naming: Naming, files: seq<FileRecord>, candidates: seq<FileRecord>)
    ensures CandidatesError(naming, files, candidates).None? <==> GoodCandidates(naming, files, candidates)
  {
    if candidates != [] {
      var n := |candidates| - 1;
      CandidatesPass(naming, files, candidates[..n]);
      LastFresh(naming, candidates[..n], candidates[n]);
      assert candidates == candidates[..n] + [candidates[n]];
    }
  }

  lemma {:induction false} FirstCandidateError(naming: Naming, files: seq<FileRecord>, candidates: seq<FileRecord>,
                                               n: nat)
    requires n <= |candidates| && CandidatesError(naming, files, candidates[..n]).Some?
    ensures CandidatesError(naming, files, candidates) == CandidatesError(naming, files, candidates[..n])
    decreases |candidates|
  {
    if n < |candidates| {
      var k := |candidates| - 1;
      assert candidates[..k][..n] == candidates[..n];
      FirstCandidateError(naming, files, candidates[..k], n);
    } else {
      assert candidates[..n] == candidates;
    }
  }

  lemma MemberByKey(naming: Naming, files: seq<FileRecord>, c: FileRecord)
    requires DistinctKeys(naming, files)
    ensures var key, byPath := naming.Key(c.path), ByPath(naming, files);
            IsMember(naming, files, c) <==> key in byPath && SameScannedRecord(naming, byPath[key], c)
  {
    var key, byPath := naming.Key(c.path), ByPath(naming, files);
    ByPathExactly(naming, files, key);
    if IsMember(naming, files, c) {
      var m :| m in files && Stands(naming, c, m);
      SameKeySameMember(naming, files, byPath[key], m);
    }
    if key in byPath && SameScannedRecord(naming, byPath[key], c) { assert Stands(naming, c, byPath[key]); }
  }

  /** The guard against a repeated identity is never needed: a new key is a new
      member, so a new identity. */
  lemma NewKeyNewIdentity(naming: Naming, files: seq<FileRecord>, before: seq<FileRecord>, c: FileRecord)
    requires DistinctIdentities(files) && GoodCandidates(naming, files, before)
    requires IsMember(naming, files, c) && naming.Key(c.path) !in KeysOf(naming, before)
    ensures c.identity !in Identities(before)
  {
    forall b | b in before ensures b.identity != c.identity {
      assert IsMember(naming, files, b);
      var k :| k in files && Stands(naming, b, k);
      var m :| m in files && Stands(naming, c, m);
      if b.identity == c.identity { SameIdentitySameMember(files, k, m); }
    }
  }

  lemma OneMoreChosen(naming: Naming, files: seq<FileRecord>, candidates: seq<FileRecord>, n: nat,
                      members: seq<FileRecord>)
    requires n < |candidates| && DistinctKeys(naming, files) && IsMember(naming, files, candidates[n])
    requires Represent(naming, files, candidates[..n], members)
    ensures naming.Key(candidates[n].path) in ByPath(naming, files)
    ensures Represent(naming, files, candidates[..n + 1],
                      members + [ByPath(naming, files)[naming.Key(candidates[n].path)]])
  {
    var c := candidates[n];
    MemberByKey(naming, files, c);
    ByPathExactly(naming, files, naming.Key(c.path));
    assert candidates[..n + 1] == candidates[..n] + [c];
  }

  method ChooseMembers(naming: Naming, r: Request, byPath: map<Path, FileRecord>)
    returns (error: Option<RequestError>, ids: set<Identity>, selected: seq<FileRecord>)
    requires GoodGroup(naming, r.group) && byPath == ByPath(naming, r.group.files)
    ensures error == CandidatesError(naming, r.group.files, r.selected)
    ensures error.None? ==> ids == Identities(r.selected) && Represent(naming, r.group.files, r.selected, selected)
  {
    ids, selected := {}, [];
    var paths: set<Path> := {};
    var candidates, files := r.selected, r.group.files;
    for i := 0 to |candidates|
      invariant CandidatesError(naming, files, candidates[..i]).None?
      invariant ids == Identities(candidates[..i]) && paths == KeysOf(naming, candidates[..i])
      invariant Represent(naming, files, candidates[..i], selected)
    {
      var c := candidates[i];
      var key := naming.Key(c.path);
      OneMore(naming, candidates, i);
      error := CheckCandidate(naming, files, byPath, paths, ids, candidates[..i], c);
      if error.Some? {
        FirstCandidateError(naming, files, candidates, i + 1);
        return;
      }
      OneMoreChosen(naming, files, candidates, i, selected);
      paths, ids, selected := paths + {key}, ids + {c.identity}, selected + [byPath[key]];
    }
    assert candidates[..|candidates|] == candidates;
    error := None;
  }

  method CheckCandidate(naming: Naming, ghost files: seq<FileRecord>, byPath: map<Path, FileRecord>, paths: set<Path>,
                        ids: set<Identity>, ghost before: seq<FileRecord>,
                          c: FileRecord) returns (error: Option<RequestError>)
    requires DistinctKeys(naming, files) && DistinctIdentities(files) && byPath == ByPath(naming, files)
    requires paths == KeysOf(naming, before) && ids == Identities(before)
             && CandidatesError(naming, files, before).None?
    ensures error == CandidateError(naming, files, before, c)
  {
    var key := naming.Key(c.path);
    MemberByKey(naming, files, c);
    if key !in byPath || !SameScannedRecord(naming, byPath[key], c) { return Some(NotAMember); }
    if key in paths { return Some(SelectedTwice); }
    CandidatesPass(naming, files, before);
    NewKeyNewIdentity(naming, files, before, c);
    if c.identity in ids { return Some(IdentityTwice); }
    error := None;
  }

  // ------------------------------------------------------------------
  // The whole request.

  function Refusal(naming: Naming, r: Request): Option<RequestError> {
    if |r.group.files| < 2 then Some(TooFewMembers)
    else if r.selected == [] then Some(NothingSelected)
    else if !IsSha256(r.group.hash) then Some(BadHash)
    else match MembersError(naming, r.group, r.group.files)
      case Some(error) => Some(error)
      case None =>
        match CandidatesError(naming, r.group.files, r.selected)
        case Some(error) => Some(error)
        case None => if |r.selected| < |r.group.files| then None else Some(NothingRetained)
  }

  /** The guards let through exactly the acceptable requests. */
  lemma RefusedExactly(naming: Naming, r: Request)
    ensures Refusal(naming, r).None? <==> Acceptable(naming, r)
  {
    MembersPass(naming, r.group, r.group.files);
    CandidatesPass(naming, r.group.files, r.selected);
  }

  /** The member at which the guards on members stop. */
  lemma {:induction false} FirstBadMember(naming: Naming, group: DuplicateGroup, files: seq<FileRecord>)
    returns (n: nat)
    requires MembersError(naming, group, files).Some?
    ensures n < |files| && MembersError(naming, group, files) == MemberError(naming, group, files[..n], files[n])
    ensures MembersError(naming, group, files[..n]).None?
  {
    n := |files| - 1;
    if MembersError(naming, group, files[..n]).Some? {
      var m := FirstBadMember(naming, group, files[..n]);
      assert files[..n][..m] == files[..m];
      n := m;
    }
  }

  lemma {:induction false} FirstBadCandidate(naming: Naming, files: seq<FileRecord>, candidates: seq<FileRecord>)
    returns (n: nat)
    requires CandidatesError(naming, files, candidates).Some?
    ensures n < |candidates|
    ensures CandidatesError(naming, files, candidates) == CandidateError(naming, files, candidates[..n], candidates[n])
    ensures CandidatesError(naming, files, candidates[..n]).None?
  {
    n := |candidates| - 1;
    if CandidatesError(naming, files, candidates[..n]).Some? {
      var m := FirstBadCandidate(naming, files, candidates[..n]);
      assert candidates[..n][..m] == candidates[..m];
      n := m;
    }
  }

  /** What an error says of the member. */
  predicate Explains(naming: Naming, group: DuplicateGroup, n: nat, error: RequestError)
    requires n < |group.files|
  {
    var m := group.files[n];
    match error
    case NoStableIdentity => m.path == "" || m.identity == Identity(0, 0)
    case InconsistentSize => m.size != group.size
    case ProtectedMember => m.linkCount != 1 || m.namedStreams > 0
    case RepeatedPath => exists i :: 0 <= i < n && SameKey(naming, group.files[i], m)
    case RepeatedIdentity => exists i :: 0 <= i < n && group.files[i].identity == m.identity
    case _ => false
  }

  lemma MemberErrorExplains(naming: Naming, group: DuplicateGroup, n: nat)
    requires n < |group.files| && MemberError(naming, group, group.files[..n], group.files[n]).Some?
    ensures Explains(naming, group, n, MemberError(naming, group, group.files[..n], group.files[n]).value)
  {
    var before, m := group.files[..n], group.files[n];
    if naming.Key(m.path) in KeysOf(naming, before) {
      var k :| k in before && naming.Key(k.path) == naming.Key(m.path);
      var i :| 0 <= i < n && before[i] == k;
      assert SameKey(naming, group.files[i], m);
    }
    if m.identity in Identities(before) {
      var k :| k in before && k.identity == m.identity;
      var i :| 0 <= i < n && before[i] == k;
      assert group.files[i].identity == m.identity;
    }
  }

  /** What an error says of the candidate. */
  predicate ExplainsCandidate(naming: Naming, r: Request, n: nat, error: RequestError)
    requires n < |r.selected|
  {
    match error
    case NotAMember => !IsMember(naming, r.group.files, r.selected[n])
    case SelectedTwice => exists i :: 0 <= i < n && SameKey(naming, r.selected[i], r.selected[n])
    case _ => false
  }

  lemma CandidateErrorExplains(naming: Naming, r: Request, n: nat)
    requires n < |r.selected| && CandidateError(naming, r.group.files, r.selected[..n], r.selected[n]).Some?
    ensures ExplainsCandidate(naming, r, n, CandidateError(naming, r.group.files, r.selected[..n], r.selected[n]).value)
  {
    var before, c := r.selected[..n], r.selected[n];
    if naming.Key(c.path) in KeysOf(naming, before) {
      var k :| k in before && naming.Key(k.path) == naming.Key(c.path);
      var i :| 0 <= i < n && before[i] == k;
      assert SameKey(naming, r.selected[i], c);
    }
  }

  /** A refusal names a fault that is there, of the first member or candidate that
      has one, members before candidates. */
  lemma RefusalExplained(naming: Naming, r: Request)
    requires Refusal(naming, r).Some?
    ensures match Refusal(naming, r).value
            case TooFewMembers => |r.group.files| < 2
            case NothingSelected => |r.group.files| >= 2 && r.selected == []
            case BadHash => !IsSha256(r.group.hash)
            case NotAMember => GoodGroup(naming, r.group) &&
              exists n: nat :: n < |r.selected| && ExplainsCandidate(naming, r, n, NotAMember)
            case SelectedTwice => GoodGroup(naming, r.group) &&
              exists n: nat :: n < |r.selected| && ExplainsCandidate(naming, r, n, SelectedTwice)
            case NothingRetained =>
              GoodGroup(naming, r.group) && GoodSelection(naming, r) && |r.selected| >= |r.group.files|
            case error => exists n: nat :: n < |r.group.files| && Explains(naming, r.group, n, error)
  {
    var files := r.group.files;
    MembersPass(naming, r.group, files);
    CandidatesPass(naming, files, r.selected);
    if MembersError(naming, r.group, files).Some? {
      var n := FirstBadMember(naming, r.group, files);
      MemberErrorExplains(naming, r.group, n);
    } else if CandidatesError(naming, files, r.selected).Some? {
      var n := FirstBadCandidate(naming, files, r.selected);
      CandidateErrorExplains(naming, r, n);
    }
  }

  method ValidateRecycleRequest(naming: Naming, r: Request) returns (result: Result<ValidRequest, RequestError>)
    ensures result.Ok? <==> Acceptable(naming, r)
    ensures result.Ok? ==> Splits(naming, r, result.value)
    ensures result.Err? ==> Refusal(naming, r) == Some(result.error)
  {
    RefusedExactly(naming, r);
    var group := r.group;
    if |group.files| < 2 { return Err(TooFewMembers); }
    if |r.selected| == 0 { return Err(NothingSelected); }
    if !IsSha256(group.hash) { return Err(BadHash); }
    var error, byPath, memberIds := CheckMembers(naming, group);
    if error.Some? { return Err(error.value); }
    MembersPass(naming, group, group.files);
    var selectedIds, selected;
    error, selectedIds, selected := ChooseMembers(naming, r, byPath);
    if error.Some? { return Err(error.value); }
    CandidatesPass(naming, group.files, r.selected);
    SelectionDistinct(naming, r);
    CountIdentities(group.files);
    CountIdentities(r.selected);
    if |selectedIds| >= |memberIds| { return Err(NothingRetained); }
    var keepers := Keepers(group.files, selectedIds);
    result := Ok(ValidRequest(LowerHex(group.hash), selected, keepers));
    AcceptedSplitsGroup(naming, r, result.value);
    if |keepers| == 0 { return Err(NoKeeper); }
  }

  method Keepers(files: seq<FileRecord>, selectedIds: set<Identity>) returns (keepers: seq<FileRecord>)
    ensures keepers == Without(files, selectedIds)
  {
    keepers := [];
    for i := 0 to |files|
      invariant keepers == Without(files[..i], selectedIds)
    {
      assert files[..i + 1][..i] == files[..i];
      if files[i].identity !in selectedIds { keepers := keepers + [files[i]]; }
    }
    assert files[..|files|] == files;
  }
}
