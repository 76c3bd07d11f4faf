/** The scan pipeline as the engine runs it, proved against the classes of `Scan`. */
module ScanEngine {
  import opened Bytes
  import opened Records
  import opened Sorting
  import opened Scan
  import opened FileHashing

  function ErrorCount<K>(key: Keyed<K>, delivered: seq<FileRecord>): nat {
    if delivered == [] then 0
    else ErrorCount(key, delivered[..|delivered| - 1]) + (if key(delivered[|delivered| - 1]).Err? then 1 else 0)
  }

  ghost predicate FatalAmong<K>(key: Keyed<K>, records: seq<FileRecord>) {
    exists f :: f in records && key(f).Err? && Fatal(key(f).error)
  }

  /** `groups` holds the delivered records by key, in delivery order. */
  ghost predicate Grouped<K(!new)>(key: Keyed<K>, delivered: seq<FileRecord>, groups: map<K, seq<FileRecord>>) {
    && (forall k :: k in groups <==> ClassOf(key, delivered, k) != [])
    && (forall k :: k in groups ==> groups[k] == ClassOf(key, delivered, k))
  }

  function AddResult<K(==)>(key: Keyed<K>, groups: map<K, seq<FileRecord>>, file: FileRecord): map<K, seq<FileRecord>> {
    match key(file)
    case Err(_) => groups
    case Ok(k) => groups[k := (if k in groups then groups[k] else []) + [file]]
  }

  lemma GroupedStep<K(!new)>(key: Keyed<K>, s: seq<FileRecord>, file: FileRecord, groups: map<K, seq<FileRecord>>)
    requires Grouped(key, s, groups)
    ensures Grouped(key, s + [file], AddResult(key, groups, file))
    ensures ErrorCount(key, s + [file]) == ErrorCount(key, s) + (if key(file).Err? then 1 else 0)
    ensures FatalAmong(key, s + [file]) <==> FatalAmong(key, s) || (key(file).Err? && Fatal(key(file).error))
  {
    assert (s + [file])[..|s|] == s;
    assert file in s + [file];
    assert forall f :: f in s + [file] <==> f in s || f == file;
  }

  /** What the consumer loop knows after the results in `s`. */
  ghost predicate SoFar<K(!new)>(key: Keyed<K>, s: seq<FileRecord>, fatal: Option<ScanError>, ignored: nat,
                                 groups: map<K, seq<FileRecord>>)
  {
    && (fatal.Some? <==> FatalAmong(key, s)) && (fatal.Some? ==> Fatal(fatal.value))
    && (fatal.None? ==> ignored == ErrorCount(key, s)) && Grouped(key, s, groups)
  }

  lemma OneMoreResult<K(!new)>(key: Keyed<K>, s: seq<FileRecord>, file: FileRecord, fatal: Option<ScanError>,
                               ignored: nat, groups: map<K, seq<FileRecord>>)
    requires SoFar(key, s, fatal, ignored, groups)
    ensures key(file).Ok? ==> SoFar(key, s + [file], fatal, ignored, AddResult(key, groups, file))
    ensures key(file).Err? && fatal.None? && Fatal(key(file).error) ==>
              SoFar(key, s + [file], Some(key(file).error), ignored, groups)
    ensures key(file).Err? && !(fatal.None? && Fatal(key(file).error)) ==>
              SoFar(key, s + [file], fatal, ignored + 1, groups)
  {
    GroupedStep(key, s, file, groups);
  }

  /** The context was seen done before result i. */
  type Stops = nat -> bool

  ghost predicate StoppedBefore(stopped: Stops, n: nat) { exists i: nat :: i < n && stopped(i) }

  /** The results are those of the delivered files. */
  ghost predicate ResultsOf<K>(key: Keyed<K>, delivered: seq<FileRecord>, results: seq<Result<K, ScanError>>) {
    |results| == |delivered| && forall i :: 0 <= i < |results| ==> results[i] == key(delivered[i])
  }

  /** The consumer loop of a hash stage: results arrive in `delivered` order. A
      cancellation seen before a result ends the scan at once; a fatal error ends
      it once all results are in, before a cancellation seen only then; any other
      error only drops its record and is counted. */
  method CollectResults<K(==,!new)>(ghost key: Keyed<K>, delivered: seq<FileRecord>,
                                    results: seq<Result<K, ScanError>>, stopped: Stops)
    returns (r: Result<map<K, seq<FileRecord>>, ScanError>, ignored: nat)
    requires ResultsOf(key, delivered, results)
    ensures r == Err(Cancelled) <==>
              StoppedBefore(stopped, |delivered|) || (!FatalAmong(key, delivered) && stopped(|delivered|))
    ensures r.Err? && r.error != Cancelled <==> !StoppedBefore(stopped, |delivered|) && FatalAmong(key, delivered)
    ensures r.Err? ==> r.error == Cancelled || Fatal(r.error)
    ensures r.Ok? ==> ignored == ErrorCount(key, delivered) && Grouped(key, delivered, r.value)
  {
    var groups: map<K, seq<FileRecord>> := map[];
    var fatal: Option<ScanError> := None;
    ignored := 0;
    for i := 0 to |delivered|
      invariant SoFar(key, delivered[..i], fatal, ignored, groups) && !StoppedBefore(stopped, i)
    {
      if stopped(i) { return Err(Cancelled), ignored; }
      var file := delivered[i];
      OneMoreResult(key, delivered[..i], file, fatal, ignored, groups);
      assert delivered[..i + 1] == delivered[..i] + [file];
      match results[i] {
        case Err(e) =>
          if fatal.None? && Fatal(e) {
            fatal := Some(e);
          } else {
            ignored := ignored + 1;
          }
        case Ok(k) =>
          groups := groups[k := (if k in groups then groups[k] else []) + [file]];
      }
    }
    assert delivered[..|delivered|] == delivered;
    r := if fatal.Some? then Err(fatal.value) else if stopped(|delivered|) then Err(Cancelled) else Ok(groups);
  }

  ghost predicate GroupsOf<K(!new)>(key: Keyed<K>, all: set<FileRecord>, groups: map<K, seq<FileRecord>>) {
    && (forall k :: k in groups ==> Lists(groups[k], Class(key, all, k)))
    && (forall f :: f in all && key(f).Ok? ==> key(f).value in groups)
  }

  lemma CollectedGroups<K(!new)>(key: Keyed<K>, delivered: seq<FileRecord>, all: set<FileRecord>,
                                    groups: map<K, seq<FileRecord>>)
    requires Lists(delivered, all) && Grouped(key, delivered, groups)
    ensures GroupsOf(key, all, groups)
  {
    forall k
      ensures Lists(ClassOf(key, delivered, k), Class(key, all, k))
    {
      ClassOfLists(key, delivered, all, k);
    }
    forall f | f in all && key(f).Ok?
      ensures key(f).value in groups
    {
      var k := key(f).value;
      ListsMember(ClassOf(key, delivered, k), Class(key, all, k));
      assert f in Class(key, all, k);
    }
  }

  /** The keys of the groups with two or more members, collected in map order. */
  method KeysOfDuplicates<K(==)>(groups: map<K, seq<FileRecord>>) returns (keys: seq<K>)
    ensures multiset(keys) == multiset(Duplicated(groups))
  {
    keys := [];
    var rest := groups.Keys;
    while rest != {}
      invariant rest <= groups.Keys
      invariant multiset(keys) == multiset(set k | k in groups && k !in rest && |groups[k]| > 1)
    {
      var k :| k in rest;
      ghost var before := set x | x in groups && x !in rest && |groups[x]| > 1;
      rest := rest - {k};
      if |groups[k]| > 1 {
        keys := keys + [k];
        assert (set x | x in groups && x !in rest && |groups[x]| > 1) == before + {k};
      } else {
        assert (set x | x in groups && x !in rest && |groups[x]| > 1) == before;
      }
    }
    assert (set k | k in groups && k !in rest && |groups[k]| > 1) == Duplicated(groups);
  }

  ghost function WithKeys<K(!new)>(key: Keyed<K>, all: set<FileRecord>, keys: seq<K>): set<FileRecord> {
    set f | f in all && key(f).Ok? && key(f).value in keys
  }

  lemma ListsAppend(a: seq<FileRecord>, sa: set<FileRecord>, b: seq<FileRecord>, sb: set<FileRecord>)
    requires Lists(a, sa) && Lists(b, sb) && sa !! sb
    ensures Lists(a + b, sa + sb)
  {
  }

  lemma WithKeysStep<K(!new)>(key: Keyed<K>, all: set<FileRecord>, keys: seq<K>, k: K)
    requires k !in keys
    ensures WithKeys(key, all, keys + [k]) == WithKeys(key, all, keys) + Class(key, all, k)
    ensures WithKeys(key, all, keys) !! Class(key, all, k)
  {
  }

  ghost function Duplicated<K>(groups: map<K, seq<FileRecord>>): set<K> { set k | k in groups && |groups[k]| > 1 }

  lemma DuplicatedKeysShare<K(!new)>(key: Keyed<K>, all: set<FileRecord>, groups: map<K, seq<FileRecord>>, keys: seq<K>)
    requires GroupsOf(key, all, groups) && forall k :: k in keys <==> k in Duplicated(groups)
    ensures WithKeys(key, all, keys) == Shared(key, all)
  {
    forall f | f in all && key(f).Ok?
      ensures key(f).value in keys <==> f in Shared(key, all)
    {
      var k := key(f).value;
      ClassSize(key, all, k);
      ListsMember(groups[k], Class(key, all, k));
      assert f in Class(key, all, k);
    }
  }

  lemma NextKey<K(!new)>(key: Keyed<K>, all: set<FileRecord>, groups: map<K, seq<FileRecord>>, keys: seq<K>, i: nat,
                            files: seq<FileRecord>)
    requires GroupsOf(key, all, groups) && Lists(keys, Duplicated(groups)) && i < |keys|
             && keys[i] in Duplicated(groups)
    requires Lists(files, WithKeys(key, all, keys[..i]))
    ensures Lists(files + SortBy(PathLess, groups[keys[i]]), WithKeys(key, all, keys[..i + 1]))
  {
    var k := keys[i];
    ListsOnce(keys, Duplicated(groups), i);
    WithKeysStep(key, all, keys[..i], k);
    ListsAppend(files, WithKeys(key, all, keys[..i]), SortBy(PathLess, groups[k]), Class(key, all, k));
    assert keys[..i + 1] == keys[..i] + [k];
  }

  /** The candidates of the next stage: the members of all groups of two or
      more, groups in key order, members in path order. */
  method FilesFromGroups<K(==,!new)>(ghost key: Keyed<K>, less: (K, K) -> bool, groups: map<K, seq<FileRecord>>,
                                     ghost all: set<FileRecord>)
    returns (files: seq<FileRecord>)
    requires GroupsOf(key, all, groups)
    ensures Lists(files, Shared(key, all))
  {
    var keys := KeysOfDuplicates(groups);
    keys := SortBy(less, keys);
    ListsMember(keys, Duplicated(groups));
    files := [];
    for i := 0 to |keys|
      invariant Lists(files, WithKeys(key, all, keys[..i]))
    {
      var k := keys[i];
      assert k in keys;
      NextKey(key, all, groups, keys, i, files);
      files := files + SortBy(PathLess, groups[k]);
    }
    assert keys[..|keys|] == keys;
    DuplicatedKeysShare(key, all, groups, keys);
  }

  lemma ListsOnce<T>(s: seq<T>, all: set<T>, i: nat)
    requires Lists(s, all) && i < |s|
    ensures s[i] !in s[..i]
  {
    assert s == s[..i] + [s[i]] + s[i + 1..];
    assert multiset(s) == multiset(s[..i]) + multiset{s[i]} + multiset(s[i + 1..]);
    assert multiset(all)[s[i]] <= 1;
    assert multiset(s[..i])[s[i]] == 0;
  }

  ghost predicate IsGroupOf(key: Keyed<FullKey>, all: set<FileRecord>, k: FullKey, g: DuplicateGroup) {
    IsGroup(key, all, g) && FullKey(g.size, g.hash) == k
  }

  lemma SortedGroup(key: Keyed<FullKey>, groups: map<FullKey, seq<FileRecord>>, all: set<FileRecord>, k: FullKey)
    requires GroupsOf(key, all, groups) && DistinctPaths(all) && k in Duplicated(groups)
    ensures IsGroupOf(key, all, k, DuplicateGroup(k.size, k.hash, SortBy(NewestFirst, groups[k])))
  {
    var sorted := SortBy(NewestFirst, groups[k]);
    RecordOrdersTotal(all);
    ListsMember(groups[k], Class(key, all, k));
    SortBySorts(NewestFirst, groups[k], iset r | r in all);
    assert |multiset(sorted)| == |multiset(groups[k])|;
  }

  /** The report: groups of two or more, members newest first, groups by size
      and hash. */
  method DuplicatesFromGroups(ghost key: Keyed<FullKey>, groups: map<FullKey, seq<FileRecord>>,
                              ghost all: set<FileRecord>)
    returns (out: seq<DuplicateGroup>)
    requires GroupsOf(key, all, groups) && DistinctPaths(all)
    ensures IsDuplicateList(key, all, out)
  {
    var keys := KeysOfDuplicates(groups);
    ListsMember(keys, Duplicated(groups));
    var unsorted := [];
    for i := 0 to |keys|
      invariant |unsorted| == i && forall j :: 0 <= j < i ==> IsGroupOf(key, all, keys[j], unsorted[j])
    {
      var k := keys[i];
      assert k in keys;
      SortedGroup(key, groups, all, k);
      unsorted := unsorted + [DuplicateGroup(k.size, k.hash, SortBy(NewestFirst, groups[k]))];
    }
    out := SortBy(LargestFirst, unsorted);
    AllGroupsOf(key, all, keys, unsorted);
    CompleteList(key, groups, all, keys, unsorted, out);
  }

  lemma AllGroupsOf(key: Keyed<FullKey>, all: set<FileRecord>, keys: seq<FullKey>, unsorted: seq<DuplicateGroup>)
    requires |unsorted| == |keys| && forall j :: 0 <= j < |keys| ==> IsGroupOf(key, all, keys[j], unsorted[j])
    ensures forall j :: 0 <= j < |keys| ==>
              IsGroup(key, all, unsorted[j]) && FullKey(unsorted[j].size, unsorted[j].hash) == keys[j]
  {
  }

  lemma CompleteList(key: Keyed<FullKey>, groups: map<FullKey, seq<FileRecord>>, all: set<FileRecord>,
                     keys: seq<FullKey>, unsorted: seq<DuplicateGroup>, out: seq<DuplicateGroup>)
    requires GroupsOf(key, all, groups) && DistinctPaths(all) && Lists(keys, Duplicated(groups))
    requires |unsorted| == |keys|
    requires forall j :: 0 <= j < |keys| ==>
               IsGroup(key, all, unsorted[j]) && FullKey(unsorted[j].size, unsorted[j].hash) == keys[j]
    requires out == SortBy(LargestFirst, unsorted)
    ensures IsDuplicateList(key, all, out)
  {
    ListsMember(keys, Duplicated(groups));
    forall i, j | 0 <= i < j < |unsorted|
      ensures unsorted[i] != unsorted[j]
    {
      ListsOnce(keys, Duplicated(groups), j);
    }
    DuplicatedKeysShare(key, all, groups, keys);
    forall f | f in Shared(key, all)
      ensures exists g :: g in out && key(f) == Ok(FullKey(g.size, g.hash))
    {
      var i :| 0 <= i < |keys| && keys[i] == key(f).value;
      assert unsorted[i] in unsorted;
    }
    GroupOrderTotal(key, all);
    SortBySorts(LargestFirst, unsorted, iset g | IsGroup(key, all, g));
    DistinctLists(unsorted);
    SortedStaysDistinct(unsorted, out);
  }

  lemma SortedStaysDistinct<T>(s: seq<T>, t: seq<T>)
    requires multiset(s) == multiset(t) && Lists(s, set x | x in s)
    ensures forall i, j :: 0 <= i < j < |t| ==> t[i] != t[j]
  {
    forall i, j | 0 <= i < j < |t|
      ensures t[i] != t[j]
    {
      ListsOnce(t, (set x | x in s), j);
      assert t[i] in t[..j];
    }
  }

  /** What workers deliver of a stage's jobs, in any order: all results, or only
      some if the context is done when the results end. */
  ghost predicate Delivers(delivered: seq<FileRecord>, jobs: seq<FileRecord>, stopped: Stops) {
    multiset(delivered) <= multiset(jobs) && (multiset(delivered) == multiset(jobs) || stopped(|delivered|))
  }

  ghost predicate FatalIn<K>(key: Keyed<K>, all: set<FileRecord>) {
    exists f :: f in all && key(f).Err? && Fatal(key(f).error)
  }

  /** A hash stage that is not cancelled has every result. */
  lemma FatalDelivered<K>(key: Keyed<K>, delivered: seq<FileRecord>, jobs: seq<FileRecord>, all: set<FileRecord>,
                          stopped: Stops)
    requires Lists(jobs, all) && Delivers(delivered, jobs, stopped)
    ensures FatalAmong(key, delivered) ==> FatalIn(key, all)
    ensures !stopped(|delivered|) ==> Lists(delivered, all) && (FatalAmong(key, delivered) <==> FatalIn(key, all))
  {
    ListsMember(jobs, all);
    forall f | f in delivered ensures f in all {
      assert f in multiset(delivered) && f in multiset(jobs);
    }
    if !stopped(|delivered|) { ListsMember(delivered, all); }
  }

  /** One filter stage: the files whose key another file shares. */
  method KeepShared<K(==,!new)>(ghost key: Keyed<K>, less: (K, K) -> bool, delivered: seq<FileRecord>,
                                results: seq<Result<K, ScanError>>, stopped: Stops,
                                ghost jobs: seq<FileRecord>, ghost all: set<FileRecord>)
    returns (r: Result<seq<FileRecord>, ScanError>)
    requires ResultsOf(key, delivered, results)
    requires Lists(jobs, all) && Delivers(delivered, jobs, stopped)
    ensures r.Ok? ==> Lists(r.value, Shared(key, all)) && !FatalIn(key, all)
    ensures r.Err? && r.error != Cancelled ==> FatalIn(key, all)
    ensures r == Err(Cancelled) ==> exists i: nat :: stopped(i)
  {
    var groups, _ := CollectResults(key, delivered, results, stopped);
    FatalDelivered(key, delivered, jobs, all, stopped);
    if groups.Err? { return Err(groups.error); }
    CollectedGroups(key, delivered, all, groups.value);
    var files := FilesFromGroups(key, less, groups.value, all);
    r := Ok(files);
  }

  /** Some record of a hash stage fails in a way that ends the scan. */
  ghost predicate FatalScan(d: Disk, all: set<FileRecord>) {
    FatalIn(BoundaryKeys(d), Shared(SizeKey(), all)) || FatalIn(FullKeys(d), Candidates(d, all))
  }

  predicate RootLost(gate: Option<ScanError>) { gate == Some(RootChanged) || gate == Some(MissingScope) }

  /** Only a root that changed or a missing scope ends the scan; any other trouble
      only leaves its record out. */
  lemma FatalScanExactly(d: Disk, all: set<FileRecord>)
    ensures FatalScan(d, all) <==> (exists f :: f in Shared(SizeKey(), all) && RootLost(d.boundaryGate(f)))
                                   || (exists f :: f in Candidates(d, all) && RootLost(d.fullGate(f)))
  {
    assert forall f :: BoundaryKeys(d)(f).Err? && Fatal(BoundaryKeys(d)(f).error) <==> RootLost(d.boundaryGate(f));
    assert forall f :: FullKeys(d)(f).Err? && Fatal(FullKeys(d)(f).error) <==> RootLost(d.fullGate(f));
  }

  lemma NothingShared(d: Disk)
    ensures Shared(BoundaryKeys(d), {}) == {} && Shared(FullKeys(d), {}) == {}
  {
  }

  lemma NothingToReport(d: Disk, all: set<FileRecord>)
    requires Candidates(d, all) == {}
    ensures IsDuplicateList(FullKeys(d), Candidates(d, all), []) && !FatalIn(FullKeys(d), Candidates(d, all))
  {
    NothingShared(d);
  }

  /** The last stage: every candidate is read and hashed, and the report list made. */
  method MapByFullHash(s: Storage, delivered: seq<FileRecord>, stopped: Stops, ghost jobs: seq<FileRecord>,
                       ghost all: set<FileRecord>)
    returns (r: Result<seq<DuplicateGroup>, ScanError>)
    requires Lists(jobs, all) && DistinctPaths(all) && Delivers(delivered, jobs, stopped)
    ensures r.Ok? ==> IsDuplicateList(FullKeys(DiskOf(s)), all, r.value) && !FatalIn(FullKeys(DiskOf(s)), all)
    ensures r.Err? && r.error != Cancelled ==> FatalIn(FullKeys(DiskOf(s)), all)
    ensures r == Err(Cancelled) ==> exists i: nat :: stopped(i)
  {
    ghost var key := FullKeys(DiskOf(s));
    var results := FullHashes(s, delivered);
    var groups, _ := CollectResults(key, delivered, results, stopped);
    FatalDelivered(key, delivered, jobs, all, stopped);
    if groups.Err? { return Err(groups.error); }
    CollectedGroups(key, delivered, all, groups.value);
    var out := DuplicatesFromGroups(key, groups.value, all);
    r := Ok(out);
  }

  /** The filter by size needs no worker. */
  method KeepSharedSizes(files: seq<FileRecord>, ghost all: set<FileRecord>) returns (kept: seq<FileRecord>)
    requires Lists(files, all)
    ensures Lists(kept, Shared(SizeKey(), all))
  {
    var never: Stops := i => false;
    var sizes := seq(|files|, i requires 0 <= i < |files| => Ok(files[i].size));
    var stage := KeepShared(SizeKey(), SizeLess, files, sizes, never, files, all);
    kept := stage.value;
  }

  /** The filter by head and tail. */
  method KeepSharedBoundaries(s: Storage, delivered: seq<FileRecord>, stopped: Stops, ghost jobs: seq<FileRecord>,
                              ghost all: set<FileRecord>)
    returns (r: Result<seq<FileRecord>, ScanError>)
    requires Lists(jobs, all) && Delivers(delivered, jobs, stopped)
    ensures var key := BoundaryKeys(DiskOf(s));
            && (r.Ok? ==> Lists(r.value, Shared(key, all)) && !FatalIn(key, all))
            && (r.Err? && r.error != Cancelled ==> FatalIn(key, all))
            && (r == Err(Cancelled) ==> exists i: nat :: stopped(i))
  {
    var d := DiskOf(s);
    var results := seq(|delivered|, i requires 0 <= i < |delivered| => BoundaryHash(d, delivered[i]));
    r := KeepShared(BoundaryKeys(d), BoundaryLess, delivered, results, stopped, jobs, all);
  }

  /** The whole pipeline: workers deliver the n-th stage's results as
      `deliver(n, ...)` orders them, and a context check i of stage n sees
      `stopped(n)(i)`. If nothing cancels it, it fails exactly on a fatal record. */
  method ScanSizeGroups(s: Storage, files: seq<FileRecord>, deliver: (nat, seq<FileRecord>) -> seq<FileRecord>,
                        stopped: nat -> Stops, ghost all: set<FileRecord>)
    returns (r: Result<seq<DuplicateGroup>, ScanError>)
    requires Lists(files, all) && DistinctPaths(all)
    requires forall n, jobs :: Delivers(deliver(n, jobs), jobs, stopped(n))
    ensures var d := DiskOf(s);
            && (r.Ok? ==> IsDuplicateList(FullKeys(d), Candidates(d, all), r.value) && !FatalScan(d, all))
            && (r.Err? && r.error != Cancelled ==> FatalScan(d, all))
    ensures r == Err(Cancelled) ==> exists n: nat, i: nat :: stopped(n)(i)
  {
    if stopped(1)(0) { return Err(Cancelled); }
    ghost var d, sized := DiskOf(s), Shared(SizeKey(), all);
    var stageTwo := KeepSharedSizes(files, all);
    if stageTwo == [] {
      ListsNothing(sized);
      NothingShared(d);
      NothingToReport(d, all);
      return Ok([]);
    }

    var delivered := deliver(2, stageTwo);
    var boundaryStage := KeepSharedBoundaries(s, delivered, stopped(2), stageTwo, sized);
    if boundaryStage.Err? { return Err(boundaryStage.error); }
    var stageThree := boundaryStage.value;
    if stageThree == [] {
      ListsNothing(Candidates(d, all));
      NothingToReport(d, all);
      return Ok([]);
    }

    delivered := deliver(3, stageThree);
    r := MapByFullHash(s, delivered, stopped(3), stageThree, Candidates(d, all));
  }

  lemma SameKeysSameList(k: Keyed<FullKey>, k': Keyed<FullKey>, all: set<FileRecord>, out: seq<DuplicateGroup>)
    requires (forall f :: f in all ==> k(f) == k'(f)) && IsDuplicateList(k, all, out)
    ensures IsDuplicateList(k', all, out)
  {
    forall key: FullKey ensures Class(k', all, key) == Class(k, all, key) {
    }
    assert Shared(k', all) == Shared(k, all);
    forall g | g in out ensures IsGroup(k', all, g) {
      assert IsGroup(k, all, g);
    }
    forall f | f in Shared(k', all) ensures exists g :: g in out && k'(f) == Ok(FullKey(g.size, g.hash)) {
      var g :| g in out && k(f) == Ok(FullKey(g.size, g.hash));
    }
  }

  /** However many bytes each read returns, the scan's list is the same. */
  lemma ChunkSizesIrrelevant(a: Storage, b: Storage, all: set<FileRecord>, out: seq<DuplicateGroup>)
    requires SameFiles(a, b) && forall r :: r in all ==> ReadsWell(a, r) && ReadsWell(b, r)
    requires IsDuplicateList(FullKeys(DiskOf(a)), Candidates(DiskOf(a), all), out)
    ensures IsDuplicateList(FullKeys(DiskOf(b)), Candidates(DiskOf(b), all), out)
  {
    var d, d' := DiskOf(a), DiskOf(b);
    forall r | r in all
      ensures FullHash(d, r) == FullHash(d', r) && BoundaryHash(d, r) == BoundaryHash(d', r)
    {
      SameHashes(a, b, r);
    }
    assert Candidates(d', all) == Candidates(d, all);
    SameKeysSameList(FullKeys(d), FullKeys(d'), Candidates(d, all), out);
  }

  /** Nothing is wrong with the record: it opens in both stages, has the size
      recorded for it, is read without a fault and stays the same. */
  ghost predicate Readable(s: Storage, r: FileRecord) {
    && s.boundaryGate(r) == None && s.openGate(r) == None && s.stableGate(r) == None
    && |s.reader(r).content| == r.size && ReadsWell(s, r)
  }

  lemma ReadableIsVerified(s: Storage, all: set<FileRecord>, r: FileRecord)
    requires r in all && Readable(s, r)
    ensures r in Verified(DiskOf(s), all)
    ensures FullHash(DiskOf(s), r) == Ok(FullKey(r.size, s.sha256(s.reader(r).content)))
  {
    FaultlessCopies(s.reader(r), s.stopped(r), s.bufferSize, 0, 0);
    BoundaryHashExactly(DiskOf(s), r);
  }

  /** From end to end: of two files with which nothing is wrong, the scan's list has
      both in one group exactly when their contents are the same, as long as SHA-256
      tells the scanned files apart. */
  lemma EqualContentsReported(s: Storage, all: set<FileRecord>, out: seq<DuplicateGroup>, f: FileRecord, g: FileRecord)
    requires IsDuplicateList(FullKeys(DiskOf(s)), Candidates(DiskOf(s), all), out) && CollisionFree(DiskOf(s), all)
    requires f in all && g in all && f != g && Readable(s, f) && Readable(s, g)
    ensures s.reader(f).content == s.reader(g).content <==> InOneGroup(out, f, g)
  {
    ReadableIsVerified(s, all, f);
    ReadableIsVerified(s, all, g);
    NoTrueGroupLost(DiskOf(s), all, out, f, g);
  }

  /** A file that does not open in either stage, is too short, is not read to its end
      or does not stay the same, is in no group. */
  lemma UnreadableNotReported(s: Storage, all: set<FileRecord>, out: seq<DuplicateGroup>, f: FileRecord,
                              x: DuplicateGroup)
    requires IsDuplicateList(FullKeys(DiskOf(s)), Candidates(DiskOf(s), all), out) && x in out
    requires s.boundaryGate(f).Some? || s.openGate(f).Some? || s.stableGate(f).Some? || |s.reader(f).content| < f.size
             || CopyEndAt(s.reader(f), s.stopped(f), s.bufferSize, 0, 0) != Copied
    ensures f !in x.files
  {
    var d := DiskOf(s);
    ListsMember(x.files, Class(FullKeys(d), Candidates(d, all), FullKey(x.size, x.hash)));
    BoundaryHashExactly(d, f);
    assert f in x.files ==> BoundaryKeys(d)(f).Ok? && FullKeys(d)(f).Ok?;
  }

  /** Two scans of the same records give the same list, whatever order workers
      deliver in. */
  lemma DeliveryOrderIrrelevant(d: Disk, all: set<FileRecord>, a: seq<DuplicateGroup>, b: seq<DuplicateGroup>)
    requires DistinctPaths(all)
    requires IsDuplicateList(FullKeys(d), Candidates(d, all), a)
    requires IsDuplicateList(FullKeys(d), Candidates(d, all), b)
    ensures a == b
  {
    assert DistinctPaths(Candidates(d, all));
    DuplicateListUnique(FullKeys(d), Candidates(d, all), a, b);
  }
}
