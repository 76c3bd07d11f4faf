/**
 The three-stage duplicate scan: group by size, then by a hash of head and tail,
 then by the full SHA-256. The hashes are uninterpreted, the results of the hash
 workers arrive in any order, and any record may fail to verify in any stage.
 */
module Scan {
  import opened Bytes
  import opened Records
  import opened Sorting

  type Content = seq<byte>

  datatype ScanError =
    | RootChanged | MissingScope | FileChanged | HardLinked | NamedStream | UnexpectedEof | Cancelled | OtherError

  const BOUNDARY_READ_SIZE := 4096

  /** The outside world of one scan: whether opening, matching and re-verifying
      a record succeeds in each stage, the bytes behind it, and the two hashes. */
  datatype Disk = Disk(
    boundaryGate: FileRecord -> Option<ScanError>,
    fullGate: FileRecord -> Option<ScanError>,
    bytes: FileRecord -> Content,
    xxhash: Content -> nat,
    sha256: Content -> string)

  datatype BoundaryKey = BoundaryKey(size: nat, hash: nat)
  datatype FullKey = FullKey(size: nat, hash: string)

  /** A key function of one stage. */
  type Keyed<K> = FileRecord -> Result<K, ScanError>

  predicate Fatal(e: ScanError) { e == RootChanged || e == MissingScope }

  function Min(a: nat, b: nat): nat { if a < b then a else b }

  function ReadAt(content: Content, offset: nat, count: nat): Content {
    if offset >= |content| then [] else content[offset..Min(offset + count, |content|)]
  }

  function LittleEndian(value: nat, width: nat): Content
    decreases width
  {
    if width == 0 then [] else [value % 256] + LittleEndian(value / 256, width - 1)
  }

  function BoundaryHash(d: Disk, r: FileRecord): Result<BoundaryKey, ScanError> {
    var length := Min(BOUNDARY_READ_SIZE, r.size);
    var head := ReadAt(d.bytes(r), 0, length);
    var tail := ReadAt(d.bytes(r), r.size - length, length);
    if d.boundaryGate(r).Some? then Err(d.boundaryGate(r).value)
    else if |head| != length || |tail| != length then Err(UnexpectedEof)
    else Ok(BoundaryKey(r.size, d.xxhash(LittleEndian(r.size, 8) + head + tail)))
  }

  /** Of a file that opens and is not too short, the hash is over the recorded size,
      the first and the last 4096 bytes within it, or as many as there are. */
  lemma BoundaryHashExactly(d: Disk, r: FileRecord)
    ensures var bytes, m := d.bytes(r), if r.size < 4096 then r.size else 4096;
            d.boundaryGate(r) == None && |bytes| >= r.size ==>
              BoundaryHash(d, r) == Ok(BoundaryKey(r.size, d.xxhash(LittleEndian(r.size, 8) + bytes[..m]
                                                                    + bytes[r.size - m..r.size])))
    ensures d.boundaryGate(r).Some? ==> BoundaryHash(d, r) == Err(d.boundaryGate(r).value)
    ensures d.boundaryGate(r) == None && |d.bytes(r)| < r.size ==> BoundaryHash(d, r) == Err(UnexpectedEof)
  {
  }

  function Power(base: nat, exponent: nat): nat { if exponent == 0 then 1 else base * Power(base, exponent - 1) }

  /** The value of bytes of increasing weight. */
  function ValueOf(bytes: Content): nat {
    if bytes == [] then 0 else bytes[0] + 256 * ValueOf(bytes[1..])
  }

  /** Sizes that fit the width are told apart. */
  lemma {:induction false} LittleEndianValue(value: nat, width: nat)
    requires value < Power(256, width)
    ensures |LittleEndian(value, width)| == width && ValueOf(LittleEndian(value, width)) == value
    decreases width
  {
    if width > 0 {
      assert value / 256 < Power(256, width - 1);
      LittleEndianValue(value / 256, width - 1);
    }
  }

  function FullHash(d: Disk, r: FileRecord): Result<FullKey, ScanError> {
    if d.fullGate(r).Some? then Err(d.fullGate(r).value) else Ok(FullKey(r.size, d.sha256(d.bytes(r))))
  }

  function SizeKey(): Keyed<nat> { (r: FileRecord) => Ok(r.size) }
  function BoundaryKeys(d: Disk): Keyed<BoundaryKey> { (r: FileRecord) => BoundaryHash(d, r) }
  function FullKeys(d: Disk): Keyed<FullKey> { (r: FileRecord) => FullHash(d, r) }

  // ------------------------------------------------------------------
  // Comparators.

  predicate PathLess(a: FileRecord, b: FileRecord) { StringLess(a.path, b.path) }

  predicate NewestFirst(a: FileRecord, b: FileRecord) {
    if a.modifiedAt != b.modifiedAt then a.modifiedAt > b.modifiedAt else PathLess(a, b)
  }

  predicate LargestFirst(a: DuplicateGroup, b: DuplicateGroup) {
    if a.size != b.size then a.size > b.size else StringLess(a.hash, b.hash)
  }

  predicate SizeLess(a: nat, b: nat) { a > b }

  predicate BoundaryLess(a: BoundaryKey, b: BoundaryKey) {
    if a.size != b.size then a.size > b.size else a.hash < b.hash
  }

  ghost predicate DistinctPaths(s: set<FileRecord>) {
    forall a, b :: a in s && b in s && a.path == b.path ==> a == b
  }

  lemma RecordOrdersTotal(s: set<FileRecord>)
    requires DistinctPaths(s)
    ensures TotalOn(PathLess, iset r | r in s)
    ensures TotalOn(NewestFirst, iset r | r in s)
  {
    StringLessOrder();
  }

  // ------------------------------------------------------------------
  // Classes.

  /** `s` lists the elements of `all`, each exactly once, in some order. */
  ghost predicate Lists<T>(s: seq<T>, all: set<T>) { multiset(s) == multiset(all) }

  ghost function Class<K>(key: Keyed<K>, all: set<FileRecord>, k: K): set<FileRecord> {
    set f | f in all && key(f) == Ok(k)
  }

  /** The members of `all` that share their key with another member. */
  ghost function Shared<K>(key: Keyed<K>, all: set<FileRecord>): set<FileRecord> {
    set f | f in all && key(f).Ok? && exists g :: g in all && g != f && key(g) == key(f)
  }

  lemma ClassSize<K>(key: Keyed<K>, all: set<FileRecord>, k: K)
    ensures |Class(key, all, k)| >= 2 <==> exists f :: f in Shared(key, all) && key(f) == Ok(k)
    ensures |Class(key, all, k)| >= 2 ==> forall f :: f in Class(key, all, k) ==> f in Shared(key, all)
  {
    var class_ := Class(key, all, k);
    forall f | f in class_
      ensures f in Shared(key, all) <==> |class_| >= 2
    {
      assert |class_ - {f}| == |class_| - 1;
      if |class_| >= 2 {
        var g :| g in class_ - {f};
      } else {
        assert class_ - {f} == {};
        assert forall g :: g in all && key(g) == Ok(k) ==> g in class_;
      }
    }
    if |class_| >= 2 {
      var f :| f in class_;
    }
  }

  /** The members with key `k`, in the order in which they were delivered. */
  function ClassOf<K(==)>(key: Keyed<K>, delivered: seq<FileRecord>, k: K): seq<FileRecord> {
    if delivered == [] then []
    else
      var last := delivered[|delivered| - 1];
      ClassOf(key, delivered[..|delivered| - 1], k) + (if key(last) == Ok(k) then [last] else [])
  }

  lemma ListsNothing<T>(all: set<T>)
    requires Lists([], all)
    ensures all == {}
  {
    assert |multiset(all)| == 0;
  }

  lemma ListsWithoutLast<T>(rest: seq<T>, last: T, all: set<T>)
    requires Lists(rest + [last], all)
    ensures last in all && Lists(rest, all - {last})
  {
    assert last in multiset(rest + [last]);
    assert multiset(rest) == multiset(all) - multiset{last} == multiset(all - {last});
  }

  lemma ListsOneMore<T>(s: seq<T>, x: T, all: set<T>)
    requires Lists(s, all - {x}) && x in all
    ensures Lists(s + [x], all)
  {
    assert all == (all - {x}) + {x};
  }

  lemma ClassWithout<K>(key: Keyed<K>, all: set<FileRecord>, x: FileRecord, k: K)
    requires x in all
    ensures Class(key, all - {x}, k) == Class(key, all, k) - {x}
    ensures x in Class(key, all, k) <==> key(x) == Ok(k)
  {
  }

  lemma {:induction false} ClassOfLists<K>(key: Keyed<K>, delivered: seq<FileRecord>, all: set<FileRecord>, k: K)
    requires Lists(delivered, all)
    ensures Lists(ClassOf(key, delivered, k), Class(key, all, k))
  {
    if delivered == [] {
      ListsNothing(all);
    } else {
      var last, rest := delivered[|delivered| - 1], delivered[..|delivered| - 1];
      assert delivered == rest + [last];
      ListsWithoutLast(rest, last, all);
      ClassOfLists(key, rest, all - {last}, k);
      ClassWithout(key, all, last, k);
      if key(last) == Ok(k) {
        ListsOneMore(ClassOf(key, rest, k), last, Class(key, all, k));
      } else {
        assert Class(key, all, k) - {last} == Class(key, all, k);
      }
    }
  }

  // ------------------------------------------------------------------
  // The duplicate list.

  /** The group lists exactly the members of `all` with its key, newest first. */
  ghost predicate IsGroup(key: Keyed<FullKey>, all: set<FileRecord>, g: DuplicateGroup) {
    && Lists(g.files, Class(key, all, FullKey(g.size, g.hash))) && |g.files| >= 2
    && SortedBy(NewestFirst, g.files)
  }

  /** `out` has one group for each class of two or more, and is in report order. */
  ghost predicate IsDuplicateList(key: Keyed<FullKey>, all: set<FileRecord>, out: seq<DuplicateGroup>) {
    && SortedBy(LargestFirst, out)
    && (forall g :: g in out ==> IsGroup(key, all, g))
    && (forall i, j :: 0 <= i < j < |out| ==> out[i] != out[j])
    && (forall f :: f in Shared(key, all) ==> exists g :: g in out && key(f) == Ok(FullKey(g.size, g.hash)))
  }

  /** The order of the report: larger files first, then by hash; in a group the
      newest first, then by path. */
  lemma ReportOrder(key: Keyed<FullKey>, all: set<FileRecord>, out: seq<DuplicateGroup>)
    requires IsDuplicateList(key, all, out)
    ensures forall i, j :: 0 <= i < j < |out| ==>
              out[i].size > out[j].size || (out[i].size == out[j].size && !StringLess(out[j].hash, out[i].hash))
    ensures forall g, i, j :: g in out && 0 <= i < j < |g.files| ==>
              var a, b := g.files[i], g.files[j];
              a.modifiedAt > b.modifiedAt || (a.modifiedAt == b.modifiedAt && !StringLess(b.path, a.path))
  {
    forall i, j | 0 <= i < j < |out|
      ensures out[i].size > out[j].size || (out[i].size == out[j].size && !StringLess(out[j].hash, out[i].hash))
    {
      assert !LargestFirst(out[j], out[i]);
    }
    forall g, i, j | g in out && 0 <= i < j < |g.files| ensures !NewestFirst(g.files[j], g.files[i]) {
      assert IsGroup(key, all, g);
    }
  }

  lemma ListsMember<T>(s: seq<T>, all: set<T>)
    requires Lists(s, all)
    ensures forall x :: x in s <==> x in all
    ensures |s| == |all|
  {
    assert forall x :: x in s <==> x in multiset(s);
    assert |multiset(s)| == |s|;
  }

  lemma {:induction false} DistinctLists<T>(s: seq<T>)
    requires forall i, j :: 0 <= i < j < |s| ==> s[i] != s[j]
    ensures Lists(s, set x | x in s)
  {
    if s == [] {
    } else {
      var rest := s[..|s| - 1];
      DistinctLists(rest);
      assert s == rest + [s[|s| - 1]];
      assert (set x | x in s) == (set x | x in rest) + {s[|s| - 1]};
    }
  }

  /** A group is determined by its key: the comparator leaves no freedom. */
  lemma GroupDetermined(key: Keyed<FullKey>, all: set<FileRecord>, a: DuplicateGroup, b: DuplicateGroup)
    requires DistinctPaths(all) && IsGroup(key, all, a) && IsGroup(key, all, b)
    requires a.size == b.size && a.hash == b.hash
    ensures a == b
  {
    RecordOrdersTotal(all);
    ListsMember(a.files, Class(key, all, FullKey(a.size, a.hash)));
    SortedPermutationUnique(NewestFirst, a.files, b.files, iset r | r in all);
  }

  lemma GroupOrderTotal(key: Keyed<FullKey>, all: set<FileRecord>)
    requires DistinctPaths(all)
    ensures TotalOn(LargestFirst, iset g | IsGroup(key, all, g))
  {
    StringLessOrder();
    forall a, b | IsGroup(key, all, a) && IsGroup(key, all, b) && a != b
      ensures LargestFirst(a, b) || LargestFirst(b, a)
    {
      if a.size == b.size && a.hash == b.hash { GroupDetermined(key, all, a, b); }
    }
  }

  lemma SameGroups(key: Keyed<FullKey>, all: set<FileRecord>, a: seq<DuplicateGroup>, b: seq<DuplicateGroup>)
    requires DistinctPaths(all) && IsDuplicateList(key, all, a) && IsDuplicateList(key, all, b)
    ensures forall g :: g in a ==> g in b
  {
    forall g | g in a
      ensures g in b
    {
      var k := FullKey(g.size, g.hash);
      ListsMember(g.files, Class(key, all, k));
      ClassSize(key, all, k);
      var f :| f in Shared(key, all) && key(f) == Ok(k);
      var h :| h in b && key(f) == Ok(FullKey(h.size, h.hash));
      GroupDetermined(key, all, g, h);
    }
  }

  /** The list is determined by the set of records, so it is the same for every
      order in which workers deliver and every order in which maps are walked. */
  lemma DuplicateListUnique(key: Keyed<FullKey>, all: set<FileRecord>, a: seq<DuplicateGroup>, b: seq<DuplicateGroup>)
    requires DistinctPaths(all) && IsDuplicateList(key, all, a) && IsDuplicateList(key, all, b)
    ensures a == b
  {
    SameGroups(key, all, a, b);
    SameGroups(key, all, b, a);
    DistinctLists(a);
    DistinctLists(b);
    assert (set x | x in a) == (set x | x in b);
    GroupOrderTotal(key, all);
    SortedPermutationUnique(LargestFirst, a, b, iset g | IsGroup(key, all, g));
  }

  // ------------------------------------------------------------------
  // Fast pipeline against simple grouping.

  /** What reaches the full-hash stage. */
  ghost function Candidates(d: Disk, files: set<FileRecord>): set<FileRecord> {
    Shared(BoundaryKeys(d), Shared(SizeKey(), files))
  }

  /** The records that verify in both hashing stages. */
  ghost function Verified(d: Disk, files: set<FileRecord>): set<FileRecord> {
    set f | f in files && BoundaryHash(d, f).Ok? && FullHash(d, f).Ok?
  }

  ghost predicate HasBoundaryPartner(d: Disk, files: set<FileRecord>, f: FileRecord) {
    exists g :: g in files && g != f && BoundaryHash(d, g) == BoundaryHash(d, f)
  }

  /** No member of a true class is alone with its head and tail. */
  ghost predicate NoMemberAloneAtBoundary(d: Disk, files: set<FileRecord>) {
    forall f :: f in Shared(FullKeys(d), Verified(d, files)) ==> HasBoundaryPartner(d, files, f)
  }

  lemma ClassFromShared<K>(key: Keyed<K>, all: set<FileRecord>, shared: set<FileRecord>, k: K)
    requires shared == Shared(key, all)
    ensures |Class(key, all, k)| >= 2 <==> Class(key, shared, k) != {}
    ensures |Class(key, all, k)| >= 2 ==> Class(key, all, k) == Class(key, shared, k)
  {
    ClassSize(key, all, k);
    if f :| f in shared && key(f) == Ok(k) {
      assert f in Class(key, shared, k);
    }
  }

  lemma SameSharedSameClass<K>(key: Keyed<K>, s: set<FileRecord>, t: set<FileRecord>, k: K)
    requires Shared(key, s) == Shared(key, t) && |Class(key, s, k)| >= 2
    ensures Class(key, s, k) == Class(key, t, k)
  {
    var shared := Shared(key, s);
    ClassFromShared(key, s, shared, k);
    ClassFromShared(key, t, shared, k);
  }

  /** The duplicate list only depends on which records share their key. */
  lemma ListDependsOnShared(key: Keyed<FullKey>, s: set<FileRecord>, t: set<FileRecord>, out: seq<DuplicateGroup>)
    requires Shared(key, s) == Shared(key, t) && IsDuplicateList(key, s, out)
    ensures IsDuplicateList(key, t, out)
  {
    forall g | g in out
      ensures IsGroup(key, t, g)
    {
      var k := FullKey(g.size, g.hash);
      ListsMember(g.files, Class(key, s, k));
      SameSharedSameClass(key, s, t, k);
    }
  }

  lemma ListDeterminesShared(key: Keyed<FullKey>, s: set<FileRecord>, out: seq<DuplicateGroup>, f: FileRecord)
    requires IsDuplicateList(key, s, out)
    ensures f in Shared(key, s) <==> exists g :: g in out && f in g.files
  {
    if f in Shared(key, s) {
      var g :| g in out && key(f) == Ok(FullKey(g.size, g.hash));
      ListsMember(g.files, Class(key, s, FullKey(g.size, g.hash)));
    }
    if g :| g in out && f in g.files {
      ListsMember(g.files, Class(key, s, FullKey(g.size, g.hash)));
      ClassSize(key, s, FullKey(g.size, g.hash));
    }
  }

  /** A member of a true class reaches the last stage exactly if another file
      has its boundary key. */
  lemma ReachesLastStage(d: Disk, files: set<FileRecord>, f: FileRecord)
    requires f in Shared(FullKeys(d), Verified(d, files))
    ensures f in Candidates(d, files) <==> HasBoundaryPartner(d, files, f)
  {
    var key, sized := FullKeys(d), Shared(SizeKey(), files);
    var partner :| partner in Verified(d, files) && partner != f && key(partner) == key(f);
    assert SizeKey()(partner) == SizeKey()(f);
    if g :| g in files && g != f && BoundaryHash(d, g) == BoundaryHash(d, f) {
      assert SizeKey()(g) == SizeKey()(f);
      assert g in sized && BoundaryKeys(d)(g) == BoundaryKeys(d)(f);
    }
    if f in Candidates(d, files) {
      var g :| g in sized && g != f && BoundaryKeys(d)(g) == BoundaryKeys(d)(f);
    }
  }

  /** Nothing is invented: what survives the filters and shares its full key is
      verified and truly shares it. */
  lemma FiltersInventNothing(d: Disk, files: set<FileRecord>)
    ensures Shared(FullKeys(d), Candidates(d, files)) <= Shared(FullKeys(d), Verified(d, files))
  {
    var key := FullKeys(d);
    forall f | f in Shared(key, Candidates(d, files))
      ensures f in Shared(key, Verified(d, files))
    {
      var g :| g in Candidates(d, files) && g != f && key(g) == key(f);
      assert g in Verified(d, files) && f in Verified(d, files);
    }
  }

  /** Nothing is lost exactly when no member of a true class is alone at the
      boundary stage. */
  lemma FiltersLoseExactly(d: Disk, files: set<FileRecord>)
    ensures Shared(FullKeys(d), Verified(d, files)) <= Shared(FullKeys(d), Candidates(d, files))
            <==> NoMemberAloneAtBoundary(d, files)
  {
    var key := FullKeys(d);
    var truly, found := Shared(key, Verified(d, files)), Shared(key, Candidates(d, files));
    forall f | f in truly
      ensures f in Candidates(d, files) <==> HasBoundaryPartner(d, files, f)
    {
      ReachesLastStage(d, files, f);
    }
    if NoMemberAloneAtBoundary(d, files) {
      forall f | f in truly
        ensures f in found
      {
        var g :| g in Verified(d, files) && g != f && key(g) == key(f);
        assert g in truly;
        assert f in Candidates(d, files) && g in Candidates(d, files);
      }
    }
  }

  /** The list of the three-stage scan is the list of one-pass grouping by (size,
      SHA-256) over the verified records, exactly when no member of a true class
      is alone with its head and tail. */
  lemma ThreeStagesEqualOnePass(d: Disk, files: set<FileRecord>, out: seq<DuplicateGroup>)
    requires IsDuplicateList(FullKeys(d), Candidates(d, files), out)
    ensures IsDuplicateList(FullKeys(d), Verified(d, files), out) <==> NoMemberAloneAtBoundary(d, files)
  {
    FiltersInventNothing(d, files);
    FiltersLoseExactly(d, files);
    var key := FullKeys(d);
    if NoMemberAloneAtBoundary(d, files) {
      ListDependsOnShared(key, Candidates(d, files), Verified(d, files), out);
    }
    if IsDuplicateList(key, Verified(d, files), out) {
      forall f
        ensures f in Shared(key, Candidates(d, files)) <==> f in Shared(key, Verified(d, files))
      {
        ListDeterminesShared(key, Candidates(d, files), out, f);
        ListDeterminesShared(key, Verified(d, files), out, f);
      }
      assert Shared(key, Candidates(d, files)) == Shared(key, Verified(d, files));
    }
  }

  /** SHA-256 tells the scanned files apart. */
  ghost predicate CollisionFree(d: Disk, files: set<FileRecord>) {
    forall f, g :: f in files && g in files && f.size == g.size && d.sha256(d.bytes(f)) == d.sha256(d.bytes(g)) ==>
      d.bytes(f) == d.bytes(g)
  }

  lemma CollisionFreeSplitsNothing(d: Disk, files: set<FileRecord>)
    requires CollisionFree(d, files)
    ensures NoMemberAloneAtBoundary(d, files)
  {
    var key := FullKeys(d);
    forall f | f in Shared(key, Verified(d, files))
      ensures HasBoundaryPartner(d, files, f)
    {
      var g :| g in Verified(d, files) && g != f && key(g) == key(f);
      SameBytesSameBoundary(d, f, g);
    }
  }

  ghost predicate InOneGroup(out: seq<DuplicateGroup>, f: FileRecord, g: FileRecord) {
    exists x :: x in out && f in x.files && g in x.files
  }

  /** Without SHA-256 collisions no true group is ever lost, and the groups are
      the classes of byte-identical files. */
  lemma NoTrueGroupLost(d: Disk, files: set<FileRecord>, out: seq<DuplicateGroup>, f: FileRecord, g: FileRecord)
    requires IsDuplicateList(FullKeys(d), Candidates(d, files), out) && CollisionFree(d, files)
    requires f in Verified(d, files) && g in Verified(d, files) && f != g
    ensures IsDuplicateList(FullKeys(d), Verified(d, files), out)
    ensures (f.size == g.size && d.bytes(f) == d.bytes(g)) <==> InOneGroup(out, f, g)
  {
    CollisionFreeSplitsNothing(d, files);
    ThreeStagesEqualOnePass(d, files, out);
    ReportedTogether(FullKeys(d), Verified(d, files), out, f, g);
  }

  /** Two records are in one group of the list exactly when they share a key. */
  lemma ReportedTogether(key: Keyed<FullKey>, all: set<FileRecord>, out: seq<DuplicateGroup>, f: FileRecord,
                         g: FileRecord)
    requires IsDuplicateList(key, all, out)
    requires f in all && g in all && f != g && key(f).Ok? && key(g).Ok?
    ensures key(f) == key(g) <==> InOneGroup(out, f, g)
  {
    forall x | x in out
      ensures f in x.files <==> key(f) == Ok(FullKey(x.size, x.hash))
      ensures g in x.files <==> key(g) == Ok(FullKey(x.size, x.hash))
    {
      ListsMember(x.files, Class(key, all, FullKey(x.size, x.hash)));
    }
    if key(f) == key(g) {
      assert f in Shared(key, all);
    }
  }

  lemma SameBytesSameBoundary(d: Disk, f: FileRecord, g: FileRecord)
    requires BoundaryHash(d, f).Ok? && BoundaryHash(d, g).Ok? && f.size == g.size && d.bytes(f) == d.bytes(g)
    ensures BoundaryHash(d, f) == BoundaryHash(d, g)
  {
  }

  lemma DroppedAtBoundary(d: Disk, a: FileRecord, b: FileRecord)
    requires BoundaryHash(d, a) != BoundaryHash(d, b)
    ensures Candidates(d, {a, b}) == {}
  {
  }

  lemma PairedInOnePass(d: Disk, a: FileRecord, b: FileRecord)
    requires a != b && BoundaryHash(d, a).Ok? && BoundaryHash(d, b).Ok? && FullHash(d, a).Ok?
             && FullHash(d, a) == FullHash(d, b)
    ensures a in Shared(FullKeys(d), Verified(d, {a, b}))
  {
    assert a in Verified(d, {a, b}) && b in Verified(d, {a, b});
    assert FullKeys(d)(a) == FullKeys(d)(b);
  }

  lemma SplitByBoundary(d: Disk, a: FileRecord, b: FileRecord)
    requires BoundaryHash(d, a).Ok? && BoundaryHash(d, b).Ok? && BoundaryHash(d, a) != BoundaryHash(d, b)
    requires FullHash(d, a).Ok? && FullHash(d, a) == FullHash(d, b) && a.path != b.path
    ensures DistinctPaths({a, b}) && IsDuplicateList(FullKeys(d), Candidates(d, {a, b}), [])
    ensures !IsDuplicateList(FullKeys(d), Verified(d, {a, b}), [])
  {
    DroppedAtBoundary(d, a, b);
    PairedInOnePass(d, a, b);
    assert Shared(FullKeys(d), {}) == {};
  }

  lemma BoundaryOfOneByte(d: Disk, r: FileRecord, v: byte)
    requires d.boundaryGate(r) == None && d.bytes(r) == [v] && r.size == 1
    ensures BoundaryHash(d, r) == Ok(BoundaryKey(1, d.xxhash(LittleEndian(1, 8) + [v] + [v])))
  {
    assert ReadAt([v], 0, 1) == [v];
  }

  function LastByte(c: Content): nat { if c == [] then 0 else c[|c| - 1] }

  lemma LastIs(before: Content, v: byte)
    ensures LastByte(before + [v]) == v
  {
  }

  /** Two files whose heads differ but whose SHA-256 is taken to collide: the
      boundary filter drops both, one-pass grouping would pair them. */
  lemma CollisionSplitsGroup() returns (d: Disk, files: set<FileRecord>)
    ensures DistinctPaths(files) && IsDuplicateList(FullKeys(d), Candidates(d, files), [])
    ensures !IsDuplicateList(FullKeys(d), Verified(d, files), [])
  {
    var id := Identity(1, 1);
    var a := FileRecord("a", 1, 0, 0, "", Identity(1, 1), 1, 0, Scope("", id, false));
    var b := a.(path := "b", identity := Identity(1, 2));
    d := Disk(r => None, r => None, (r: FileRecord) => if r.path == "a" then [0] else [1], LastByte, c => "same");
    files := {a, b};
    BoundaryOfOneByte(d, a, 0);
    BoundaryOfOneByte(d, b, 1);
    LastIs(LittleEndian(1, 8) + [0], 0);
    LastIs(LittleEndian(1, 8) + [1], 1);
    SplitByBoundary(d, a, b);
  }
}
