/**
 Rule-based selection: one keeper per group, everything else marked, and the
 independent check that fails closed.
 */
module KeepRules {
  import opened Bytes
  import opened Records
  import opened Sorting

  const KEEP_NEWEST := "keep-newest"
  const KEEP_OLDEST := "keep-oldest"

  datatype Policy = Policy(strategy: string, priorityFolders: seq<Path>)

  /** The platform's path functions: trimming, absolute and cleaned form (which
      may fail), and whether a path lies below a folder ignoring case. */
  datatype Paths = Paths(trim: string -> string, absolute: Path -> Option<Path>, within: (Path, Path) -> bool)

  datatype Selection = Selection(group: DuplicateGroup, keep: FileRecord, marked: seq<FileRecord>)

  datatype PolicyError = UnknownStrategy | UnresolvableFolder | InvariantViolated

  // ------------------------------------------------------------------
  // Normalizing the policy.

  /** The non-blank folders in absolute form; None if one cannot be resolved. */
  function NormalFolders(paths: Paths, folders: seq<Path>): Option<seq<Path>> {
    if folders == [] then Some([])
    else
      match NormalFolders(paths, folders[..|folders| - 1])
      case None => None
      case Some(before) =>
        var folder := paths.trim(folders[|folders| - 1]);
        if folder == "" then Some(before)
        else match paths.absolute(folder)
          case None => None
          case Some(absolute) => Some(before + [absolute])
  }

  function Normalized(paths: Paths, policy: Policy): Result<Policy, PolicyError> {
    if policy.strategy != KEEP_NEWEST && policy.strategy != KEEP_OLDEST && policy.strategy != ""
      then Err(UnknownStrategy)
    else
      var strategy := if policy.strategy == "" then KEEP_NEWEST else policy.strategy;
      match NormalFolders(paths, policy.priorityFolders)
      case None => Err(UnresolvableFolder)
      case Some(folders) => Ok(Policy(strategy, folders))
  }

  /** The folders that are named at all, trimmed. */
  function NamedFolders(paths: Paths, folders: seq<Path>): seq<Path> {
    if folders == [] then []
    else
      var first := paths.trim(folders[0]);
      (if first == "" then [] else [first]) + NamedFolders(paths, folders[1..])
  }

  lemma {:induction false} NamedSplit(paths: Paths, folders: seq<Path>)
    requires folders != []
    ensures var n, last := |folders| - 1, paths.trim(folders[|folders| - 1]);
            NamedFolders(paths, folders) == NamedFolders(paths, folders[..n]) + if last == "" then [] else [last]
  {
    if |folders| > 1 {
      NamedSplit(paths, folders[1..]);
      assert folders[1..][..|folders| - 2] == folders[..|folders| - 1][1..];
    } else {
      assert folders[..0] == [] && folders[1..] == [];
    }
  }

  /** Every named folder is resolved, in order; one that cannot be fails them all. */
  lemma {:induction false} NormalFoldersExactly(paths: Paths, folders: seq<Path>)
    ensures var named, normal := NamedFolders(paths, folders), NormalFolders(paths, folders);
            && (normal.Some? <==> forall i :: 0 <= i < |named| ==> paths.absolute(named[i]).Some?)
            && (normal.Some? ==> |normal.value| == |named|
                                 && forall i :: 0 <= i < |named| ==> paths.absolute(named[i]) == Some(normal.value[i]))
  {
    if folders != [] {
      var rest := folders[..|folders| - 1];
      NormalFoldersExactly(paths, rest);
      NamedSplit(paths, folders);
      var before, named := NamedFolders(paths, rest), NamedFolders(paths, folders);
      assert forall i :: 0 <= i < |before| ==> named[i] == before[i];
      if |named| > |before| { assert named[|before|] == paths.trim(folders[|folders| - 1]); }
    }
  }

  /** Only the two strategies run, and no strategy means keep-newest. */
  lemma NormalizedStrategy(paths: Paths, policy: Policy)
    ensures Normalized(paths, policy) == Err(UnknownStrategy) <==>
              policy.strategy != KEEP_OLDEST && policy.strategy != KEEP_NEWEST && policy.strategy != ""
    ensures Normalized(paths, policy).Ok? ==>
              var n := Normalized(paths, policy).value;
              && n.strategy == (if policy.strategy == KEEP_OLDEST then KEEP_OLDEST else KEEP_NEWEST)
              && Some(n.priorityFolders) == NormalFolders(paths, policy.priorityFolders)
  {
  }

  lemma {:induction false} FailureStays(paths: Paths, folders: seq<Path>, n: nat)
    requires n <= |folders| && NormalFolders(paths, folders[..n]).None?
    ensures NormalFolders(paths, folders).None?
    decreases |folders|
  {
    if n < |folders| {
      assert folders[..|folders| - 1][..n] == folders[..n];
      FailureStays(paths, folders[..|folders| - 1], n);
    } else {
      assert folders[..n] == folders;
    }
  }

  method NormalizeSelectionPolicy(paths: Paths, policy: Policy) returns (r: Result<Policy, PolicyError>)
    ensures r == Normalized(paths, policy)
  {
    var strategy := policy.strategy;
    if strategy == "" {
      strategy := KEEP_NEWEST;
    } else if strategy != KEEP_NEWEST && strategy != KEEP_OLDEST {
      return Err(UnknownStrategy);
    }
    var folders := policy.priorityFolders;
    var normalized: seq<Path> := [];
    for i := 0 to |folders|
      invariant NormalFolders(paths, folders[..i]) == Some(normalized)
    {
      assert folders[..i + 1][..i] == folders[..i];
      var folder := paths.trim(folders[i]);
      if folder != "" {
        var absolute := paths.absolute(folder);
        if absolute.None? {
          FailureStays(paths, folders, i + 1);
          return Err(UnresolvableFolder);
        }
        normalized := normalized + [absolute.value];
      }
    }
    assert folders[..|folders|] == folders;
    r := Ok(Policy(strategy, normalized));
  }

  // ------------------------------------------------------------------
  // The best member.

  /** `a` is kept rather than `b`. */
  predicate Better(strategy: string, a: FileRecord, b: FileRecord) {
    if a.modifiedAt != b.modifiedAt then
      if strategy == KEEP_OLDEST then a.modifiedAt < b.modifiedAt else a.modifiedAt > b.modifiedAt
    else StringLess(a.path, b.path)
  }

  predicate BetterAt(files: seq<FileRecord>, strategy: string, i: nat, j: nat) {
    i < |files| && j < |files| && Better(strategy, files[i], files[j])
  }

  /** Some member lies below the folder. */
  predicate Matches(paths: Paths, files: seq<FileRecord>, folder: Path) {
    exists i :: 0 <= i < |files| && paths.within(files[i].path, folder)
  }

  /** The members the keeper is chosen from: those below the earliest folder that
      has any, or all. */
  predicate InTier(paths: Paths, files: seq<FileRecord>, folders: seq<Path>, i: nat)
    requires i < |files|
  {
    if folders == [] then true
    else if Matches(paths, files, folders[0]) then paths.within(files[i].path, folders[0])
    else InTier(paths, files, folders[1..], i)
  }

  /** Member k is in the tier and no other member of the tier is better. */
  predicate IsBest(paths: Paths, files: seq<FileRecord>, policy: Policy, k: nat) {
    k < |files| && InTier(paths, files, policy.priorityFolders, k)
    && forall i :: 0 <= i < |files| && InTier(paths, files, policy.priorityFolders, i)
               ==> !BetterAt(files, policy.strategy, i, k)
  }

  /** With distinct paths there is one best member. */
  lemma BestUnique(paths: Paths, files: seq<FileRecord>, policy: Policy, a: nat, b: nat)
    requires IsBest(paths, files, policy, a) && IsBest(paths, files, policy, b)
    requires forall i, j :: 0 <= i < j < |files| ==> files[i].path != files[j].path
    ensures a == b
  {
    assert !BetterAt(files, policy.strategy, a, b) && !BetterAt(files, policy.strategy, b, a);
    StringLessTotal(files[a].path, files[b].path);
  }

  lemma {:induction false} SkipsUnmatched(paths: Paths, files: seq<FileRecord>, folders: seq<Path>, n: nat, i: nat)
    requires i < |files| && n <= |folders|
    requires forall k :: 0 <= k < n ==> !Matches(paths, files, folders[k])
    ensures InTier(paths, files, folders, i) == InTier(paths, files, folders[n..], i)
  {
    if n > 0 {
      assert folders[1..][n - 1..] == folders[n..];
      SkipsUnmatched(paths, files, folders[1..], n - 1, i);
    }
  }

  /** The tier: below the first folder that any member is below, or everybody. */
  lemma {:induction false} TierExactly(paths: Paths, files: seq<FileRecord>, folders: seq<Path>, n: nat, i: nat)
    requires i < |files| && n <= |folders| && forall m :: 0 <= m < n ==> !Matches(paths, files, folders[m])
    ensures n == |folders| ==> InTier(paths, files, folders, i)
    ensures n < |folders| && Matches(paths, files, folders[n]) ==>
              (InTier(paths, files, folders, i) <==> paths.within(files[i].path, folders[n]))
  {
    SkipsUnmatched(paths, files, folders, n, i);
  }

  /** The kept file has the earliest, or the latest, time, and of such the first path. */
  predicate KeptOver(oldest: bool, kept: FileRecord, other: FileRecord) {
    || (if oldest then kept.modifiedAt < other.modifiedAt else kept.modifiedAt > other.modifiedAt)
    || (kept.modifiedAt == other.modifiedAt && !StringLess(other.path, kept.path))
  }

  /** The best member is the oldest of its tier under keep-oldest, the newest under
      keep-newest, and the first by path of several. */
  lemma BestExactly(paths: Paths, files: seq<FileRecord>, policy: Policy, k: nat)
    requires k < |files| && (policy.strategy == KEEP_OLDEST || policy.strategy == KEEP_NEWEST)
    ensures IsBest(paths, files, policy, k) <==>
              && InTier(paths, files, policy.priorityFolders, k)
              && forall i :: 0 <= i < |files| && InTier(paths, files, policy.priorityFolders, i) ==>
                   KeptOver(policy.strategy == KEEP_OLDEST, files[k], files[i])
  {
    forall i | 0 <= i < |files|
      ensures BetterAt(files, policy.strategy, i, k) <==> !KeptOver(policy.strategy == KEEP_OLDEST, files[k], files[i])
    {
    }
  }

  // ------------------------------------------------------------------
  // Choosing it.

  ghost predicate Lists(candidates: seq<nat>, files: seq<FileRecord>, chosen: nat -> bool) {
    (forall c :: c in candidates ==> c < |files| && chosen(c))
    && (forall i: nat :: i < |files| && chosen(i) ==> i in candidates)
  }

  method MembersBelow(paths: Paths, files: seq<FileRecord>, folder: Path) returns (candidates: seq<nat>)
    ensures forall i: nat :: i in candidates <==> i < |files| && paths.within(files[i].path, folder)
    ensures candidates != [] <==> Matches(paths, files, folder)
  {
    candidates := [];
    for index: nat := 0 to |files|
      invariant forall i: nat :: i in candidates <==> i < index && paths.within(files[i].path, folder)
    {
      if paths.within(files[index].path, folder) { candidates := candidates + [index]; }
    }
    if candidates != [] { assert candidates[0] in candidates; }
  }

  method AllMembers(files: seq<FileRecord>) returns (candidates: seq<nat>)
    ensures forall i: nat :: i in candidates <==> i < |files|
  {
    candidates := [];
    for index: nat := 0 to |files|
      invariant forall i: nat :: i in candidates <==> i < index
    {
      candidates := candidates + [index];
    }
  }

  method Candidates(paths: Paths, files: seq<FileRecord>, folders: seq<Path>) returns (candidates: seq<nat>)
    ensures forall i: nat :: i in candidates <==> i < |files| && InTier(paths, files, folders, i)
    ensures files != [] ==> candidates != []
  {
    for n := 0 to |folders|
      invariant forall k :: 0 <= k < n ==> !Matches(paths, files, folders[k])
    {
      candidates := MembersBelow(paths, files, folders[n]);
      forall i: nat | i < |files| ensures InTier(paths, files, folders, i) == InTier(paths, files, folders[n..], i) {
        SkipsUnmatched(paths, files, folders, n, i);
      }
      if candidates != [] { return; }
    }
    candidates := AllMembers(files);
    forall i: nat | i < |files| ensures InTier(paths, files, folders, i) {
      SkipsUnmatched(paths, files, folders, |folders|, i);
    }
    if files != [] { assert 0 in candidates; }
  }

  /** A strict order that leaves only members with the same time and path equal;
      among those the library sort may put any first. */
  ghost predicate SortedCandidates(files: seq<FileRecord>, strategy: string, candidates: seq<nat>) {
    forall i, j :: 0 <= i < j < |candidates| ==> !BetterAt(files, strategy, candidates[j], candidates[i])
  }

  predicate IndexLess(files: seq<FileRecord>, strategy: string, i: nat, j: nat) {
    BetterAt(files, strategy, i, j) || (!BetterAt(files, strategy, j, i) && i < j)
  }

  lemma BetterOrder(strategy: string, a: FileRecord, b: FileRecord, c: FileRecord)
    ensures Better(strategy, a, b) ==> !Better(strategy, b, a)
    ensures Better(strategy, a, b) && !Better(strategy, c, b) ==> Better(strategy, a, c)
    ensures !Better(strategy, b, a) && Better(strategy, b, c) ==> Better(strategy, a, c)
    ensures !Better(strategy, b, a) && !Better(strategy, c, b) ==> !Better(strategy, c, a)
  {
    StringLessOrder();
  }

  predicate IsIndex(files: seq<FileRecord>, i: nat) { i < |files| }

  lemma IndexOrder(files: seq<FileRecord>, strategy: string)
    ensures TotalOn((i: nat, j: nat) => IndexLess(files, strategy, i, j), iset i: nat | IsIndex(files, i))
  {
    forall i: nat, j: nat, k: nat | i < |files| && j < |files| && k < |files|
      ensures IndexLess(files, strategy, i, j) ==> !IndexLess(files, strategy, j, i)
      ensures i != j ==> IndexLess(files, strategy, i, j) || IndexLess(files, strategy, j, i)
      ensures IndexLess(files, strategy, i, j) && IndexLess(files, strategy, j, k) ==> IndexLess(files, strategy, i, k)
    {
      BetterOrder(strategy, files[i], files[j], files[k]);
    }
  }

  /** The unstable library sort; nothing else is known of its result. */
  method SortCandidates(files: seq<FileRecord>, strategy: string, candidates: seq<nat>) returns (sorted: seq<nat>)
    requires forall c :: c in candidates ==> c < |files|
    ensures multiset(sorted) == multiset(candidates) && (forall c :: c in sorted <==> c in candidates)
    ensures SortedCandidates(files, strategy, sorted)
  {
    var less := (i: nat, j: nat) => IndexLess(files, strategy, i, j);
    sorted := SortBy(less, candidates);
    IndexOrder(files, strategy);
    SortBySorts(less, candidates, iset i: nat | IsIndex(files, i));
    forall i, j | 0 <= i < j < |sorted| ensures !BetterAt(files, strategy, sorted[j], sorted[i]) {
      assert !less(sorted[j], sorted[i]);
    }
  }

  method SelectKeeperIndex(paths: Paths, files: seq<FileRecord>, policy: Policy) returns (k: nat)
    requires files != []
    ensures IsBest(paths, files, policy, k)
  {
    var candidates := Candidates(paths, files, policy.priorityFolders);
    var sorted := SortCandidates(files, policy.strategy, candidates);
    assert candidates[0] in sorted;
    k := sorted[0];
    assert k in candidates;
    forall i | 0 <= i < |files| && InTier(paths, files, policy.priorityFolders, i)
      ensures !BetterAt(files, policy.strategy, i, k)
    {
      assert i in sorted;
      var at :| 0 <= at < |sorted| && sorted[at] == i;
      if at == 0 { BetterOrder(policy.strategy, files[i], files[k], files[k]); }
    }
  }

  // ------------------------------------------------------------------
  // Selections.

  function WithoutIndex<T>(s: seq<T>, k: nat): seq<T>
    requires k < |s|
  {
    s[..k] + s[k + 1..]
  }

  predicate KeepsAt(s: Selection, k: nat) {
    k < |s.group.files| && s.keep == s.group.files[k] && s.marked == WithoutIndex(s.group.files, k)
  }

  /** The selection keeps the best member and marks every other, in order. */
  ghost predicate IsSelection(paths: Paths, policy: Policy, s: Selection) {
    exists k: nat :: IsBest(paths, s.group.files, policy, k) && KeepsAt(s, k)
  }

  /** The invariant as the independent check states it. */
  predicate InvariantHolds(s: Selection) {
    |s.group.files| >= 2 && |s.marked| < |s.group.files|
    && (exists m :: m in s.group.files && m.path == s.keep.path)
    && (forall f :: f in s.marked ==> f.path != s.keep.path && exists m :: m in s.group.files && m.path == f.path)
  }

  method ValidateSelectionInvariant(s: Selection) returns (ok: bool)
    ensures ok == InvariantHolds(s)
  {
    if |s.group.files| < 2 { return false; }
    if |s.marked| >= |s.group.files| { return false; }
    var members: set<Path> := {};
    for i := 0 to |s.group.files|
      invariant members == set m | m in s.group.files[..i] :: m.path
    {
      assert s.group.files[..i + 1] == s.group.files[..i] + [s.group.files[i]];
      members := members + {s.group.files[i].path};
    }
    assert s.group.files[..|s.group.files|] == s.group.files;
    if s.keep.path !in members { return false; }
    for i := 0 to |s.marked|
      invariant forall j :: 0 <= j < i ==> s.marked[j].path in members && s.marked[j].path != s.keep.path
    {
      if s.marked[i].path !in members { return false; }
      if s.marked[i].path == s.keep.path { return false; }
    }
    ok := true;
  }

  lemma OthersExactly<T>(s: seq<T>, k: nat, x: T)
    requires k < |s|
    ensures x in s <==> x in WithoutIndex(s, k) || x == s[k]
  {
    assert s == s[..k] + [s[k]] + s[k + 1..];
  }

  /** The check lets a selection through exactly when no marked member has the
      keeper's path. */
  lemma InvariantExactly(s: Selection, k: nat)
    requires |s.group.files| >= 2 && KeepsAt(s, k)
    ensures InvariantHolds(s) <==> forall f :: f in s.marked ==> f.path != s.keep.path
  {
    assert s.keep in s.group.files;
    forall f ensures f in s.group.files <==> f in s.marked || f == s.keep { OthersExactly(s.group.files, k, f); }
  }

  /** An accepted selection leaves exactly one member unmarked: the keeper, at a
      path of its own. */
  lemma AllButOne(s: Selection, k: nat)
    requires KeepsAt(s, k) && InvariantHolds(s)
    ensures s.keep in s.group.files && |s.marked| == |s.group.files| - 1
    ensures multiset(s.group.files) == multiset(s.marked) + multiset{s.keep}
    ensures forall m :: m in s.group.files && (forall f :: f in s.marked ==> f.path != m.path) <==> m == s.keep
  {
    var files := s.group.files;
    assert files == files[..k] + [files[k]] + files[k + 1..];
    forall m ensures m in files && (forall f :: f in s.marked ==> f.path != m.path) <==> m == s.keep {
      OthersExactly(files, k, m);
    }
  }

  /** The groups that get a selection: those with at least two members. */
  function Selectable(groups: seq<DuplicateGroup>): seq<DuplicateGroup> {
    if groups == [] then []
    else
      var n := |groups| - 1;
      Selectable(groups[..n]) + if |groups[n].files| < 2 then [] else [groups[n]]
  }

  ghost predicate AreSelections(paths: Paths, policy: Policy, groups: seq<DuplicateGroup>, selections: seq<Selection>) {
    |selections| == |groups|
    && forall i :: 0 <= i < |groups| ==> RightFor(paths, policy, groups[i], selections[i])
  }

  /** The selection of one group keeps its best file and passes the check. */
  ghost predicate RightFor(paths: Paths, policy: Policy, group: DuplicateGroup, s: Selection) {
    s.group == group && IsSelection(paths, policy, s) && InvariantHolds(s)
  }

  /** Of those in the tier, the selection keeps the oldest if that was asked for, the
      newest otherwise. */
  ghost predicate KeepsByTime(paths: Paths, policy: Policy, s: Selection) {
    Normalized(paths, policy).Ok? &&
    exists k: nat :: KeepsAt(s, k) && KeptOfTier(paths, s.group.files, Normalized(paths, policy).value.priorityFolders,
                                                 policy.strategy == KEEP_OLDEST, k)
  }

  predicate KeptOfTier(paths: Paths, files: seq<FileRecord>, folders: seq<Path>, oldest: bool, k: nat) {
    && k < |files| && InTier(paths, files, folders, k)
    && forall i :: 0 <= i < |files| && InTier(paths, files, folders, i) ==> KeptOver(oldest, files[k], files[i])
  }

  lemma SelectionKeepsByTime(paths: Paths, policy: Policy, group: DuplicateGroup, s: Selection)
    requires Normalized(paths, policy).Ok? && RightFor(paths, Normalized(paths, policy).value, group, s)
    ensures KeepsByTime(paths, policy, s)
  {
    var normalized := Normalized(paths, policy).value;
    NormalizedStrategy(paths, policy);
    var k: nat :| IsBest(paths, group.files, normalized, k) && KeepsAt(s, k);
    BestExactly(paths, group.files, normalized, k);
  }

  method MarkOthers(files: seq<FileRecord>, keeperIndex: nat) returns (marked: seq<FileRecord>)
    requires keeperIndex < |files|
    ensures marked == WithoutIndex(files, keeperIndex)
  {
    marked := [];
    for index := 0 to |files|
      invariant marked == if index <= keeperIndex then files[..index]
                          else files[..keeperIndex] + files[keeperIndex + 1..index]
    {
      if index == keeperIndex { continue; }
      marked := marked + [files[index]];
    }
  }

  /** Another member of the group has the path of its best one. */
  ghost predicate KeeperRepeated(paths: Paths, policy: Policy, g: DuplicateGroup) {
    |g.files| >= 2 && exists k: nat, j: nat :: IsBest(paths, g.files, policy, k) && SamePathAt(g.files, k, j)
  }

  predicate SamePathAt(files: seq<FileRecord>, k: nat, j: nat) {
    k < |files| && j < |files| && j != k && files[j].path == files[k].path
  }

  lemma RepeatedPath(files: seq<FileRecord>, k: nat) returns (j: nat)
    requires k < |files| && exists f :: f in WithoutIndex(files, k) && f.path == files[k].path
    ensures SamePathAt(files, k, j)
  {
    var others := WithoutIndex(files, k);
    var f :| f in others && f.path == files[k].path;
    var at :| 0 <= at < |others| && others[at] == f;
    j := if at < k then at else at + 1;
  }

  lemma MarkedIfOther(files: seq<FileRecord>, k: nat, j: nat)
    requires k < |files| && j < |files| && j != k
    ensures files[j] in WithoutIndex(files, k)
  {
    var others := WithoutIndex(files, k);
    assert files[j] == others[if j < k then j else j - 1];
  }

  /** All best members of a group have the same path. */
  lemma BestSamePath(paths: Paths, files: seq<FileRecord>, policy: Policy, a: nat, b: nat)
    requires IsBest(paths, files, policy, a) && IsBest(paths, files, policy, b)
    ensures files[a].path == files[b].path
  {
    assert !BetterAt(files, policy.strategy, a, b) && !BetterAt(files, policy.strategy, b, a);
    StringLessTotal(files[a].path, files[b].path);
  }

  lemma PassedNotRepeated(paths: Paths, policy: Policy, g: DuplicateGroup, s: Selection)
    requires RightFor(paths, policy, g, s)
    ensures !KeeperRepeated(paths, policy, g)
  {
    var kept: nat :| IsBest(paths, g.files, policy, kept) && KeepsAt(s, kept);
    InvariantExactly(s, kept);
    forall j: nat | j < |g.files| && j != kept ensures g.files[j].path != s.keep.path {
      MarkedIfOther(g.files, kept, j);
    }
    forall k: nat | IsBest(paths, g.files, policy, k) ensures g.files[k].path == s.keep.path {
      BestSamePath(paths, g.files, policy, kept, k);
    }
  }

  lemma {:induction false} IsSelectable(groups: seq<DuplicateGroup>, g: DuplicateGroup)
    requires g in groups && |g.files| >= 2
    ensures g in Selectable(groups)
  {
    var n := |groups| - 1;
    if g != groups[n] {
      assert g in groups[..n];
      IsSelectable(groups[..n], g);
    }
  }

  lemma NoKeeperRepeated(paths: Paths, policy: Policy, groups: seq<DuplicateGroup>, selections: seq<Selection>)
    requires AreSelections(paths, policy, Selectable(groups), selections)
    ensures forall g :: g in groups ==> !KeeperRepeated(paths, policy, g)
  {
    forall g | g in groups && |g.files| >= 2 ensures !KeeperRepeated(paths, policy, g) {
      IsSelectable(groups, g);
      var i :| 0 <= i < |Selectable(groups)| && Selectable(groups)[i] == g;
      PassedNotRepeated(paths, policy, g, selections[i]);
    }
  }

  /** One selection for every group of two or more; an error exactly for a policy
      that cannot run or a group in which the path of the best member is repeated. */
  method ApplySelectionPolicy(paths: Paths, groups: seq<DuplicateGroup>, policy: Policy)
    returns (r: Result<seq<Selection>, PolicyError>)
    ensures r.Ok? ==> Normalized(paths, policy).Ok?
                      && AreSelections(paths, Normalized(paths, policy).value, Selectable(groups), r.value)
    ensures r.Ok? ==> forall i :: 0 <= i < |r.value| ==> KeepsByTime(paths, policy, r.value[i])
    ensures r.Err? && r.error != InvariantViolated ==> Normalized(paths, policy) == Err(r.error)
    ensures r == Err(InvariantViolated) <==>
              && Normalized(paths, policy).Ok?
              && exists g :: g in groups && KeeperRepeated(paths, Normalized(paths, policy).value, g)
  {
    var normalized := NormalizeSelectionPolicy(paths, policy);
    if normalized.Err? { return Err(normalized.error); }
    var selections: seq<Selection> := [];
    for n := 0 to |groups|
      invariant AreSelections(paths, normalized.value, Selectable(groups[..n]), selections)
    {
      assert groups[..n + 1][..n] == groups[..n];
      var group := groups[n];
      if |group.files| >= 2 {
        var k := SelectKeeperIndex(paths, group.files, normalized.value);
        var marked := MarkOthers(group.files, k);
        var selection := Selection(group, group.files[k], marked);
        assert KeepsAt(selection, k);
        var ok := ValidateSelectionInvariant(selection);
        if !ok {
          InvariantExactly(selection, k);
          var _ := RepeatedPath(group.files, k);
          assert KeeperRepeated(paths, normalized.value, group);
          return Err(InvariantViolated);
        }
        selections := selections + [selection];
      }
    }
    assert groups[..|groups|] == groups;
    NoKeeperRepeated(paths, normalized.value, groups, selections);
    forall i | 0 <= i < |selections| ensures KeepsByTime(paths, policy, selections[i]) {
      SelectionKeepsByTime(paths, policy, Selectable(groups)[i], selections[i]);
    }
    r := Ok(selections);
  }
}
