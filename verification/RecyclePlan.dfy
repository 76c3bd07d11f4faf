/**
 From checked rows to recycle requests: however rows were checked, a plan leaves
 a physical copy in every group it touches.
 */
module RecyclePlan {
  import opened Bytes
  import opened Records
  import opened RecycleRequest
  import opened Strings

  datatype Row = Row(file: FileRecord, key: string, hash: string, group: int, number: int, duplicate: bool,
                     selected: bool)

  datatype Planned = Planned(groupNumber: int, request: Request)

  datatype Plan = Plan(groups: seq<Planned>, selectedCount: nat)

  datatype PlanError = InconsistentGroup | WouldRemoveAllCopies | NothingChecked

  /** What counts as one physical copy: the file identity, or the path of a file
      without one. */
  datatype CopyKey = ById(identity: Identity) | ByPath(path: Path)

  function CopyKeyOf(naming: Naming, file: FileRecord): CopyKey {
    if file.identity != NO_IDENTITY then ById(file.identity) else ByPath(naming.Key(file.path))
  }

  function CopyKeys(naming: Naming, files: seq<FileRecord>): set<CopyKey> { set f | f in files :: CopyKeyOf(naming, f) }

  function RowKey(row: Row): string {
    if row.key == "" then Decimal(row.file.size) + ":" + row.hash else row.key
  }

  /** The key of a row tells size and hash. */
  lemma KeyTells(size: nat, hash: string, size': nat, hash': string)
    requires Decimal(size) + ":" + hash == Decimal(size') + ":" + hash'
    ensures size == size' && hash == hash'
  {
    var a, b := Decimal(size), Decimal(size');
    ValueOfDecimal(size);
    ValueOfDecimal(size');
    var s := a + ":" + hash;
    assert s == b + ":" + hash';
    assert forall i :: 0 <= i < |a| ==> s[i] == a[i] && IsDigit(a[i]);
    assert forall i :: 0 <= i < |b| ==> s[i] == b[i] && IsDigit(b[i]);
    assert s[|a|] == ':' && s[|b|] == ':';
    assert |a| == |b|;
    assert a == s[..|a|] == s[..|b|] == b;
    assert hash == s[|a| + 1..] == s[|b| + 1..] == hash';
  }

  /** Rows without a key are of one group exactly with the same size and hash. */
  lemma KeylessGroup(a: Row, b: Row)
    requires a.key == "" && b.key == ""
    ensures RowKey(a) == RowKey(b) <==> a.file.size == b.file.size && a.hash == b.hash
  {
    if RowKey(a) == RowKey(b) { KeyTells(a.file.size, a.hash, b.file.size, b.hash); }
  }

  // ------------------------------------------------------------------
  // The groups the rows make.

  predicate InGroup(row: Row, key: string) { row.duplicate && RowKey(row) == key }

  function Members(rows: seq<Row>, key: string): seq<FileRecord> {
    if rows == [] then []
    else
      var n := |rows| - 1;
      Members(rows[..n], key) + if InGroup(rows[n], key) then [rows[n].file] else []
  }

  function Checked(rows: seq<Row>, key: string): seq<FileRecord> {
    if rows == [] then []
    else
      var n := |rows| - 1;
      Checked(rows[..n], key) + if InGroup(rows[n], key) && rows[n].selected then [rows[n].file] else []
  }

  /** The keys of the groups, in the order they appear. */
  function Keys(rows: seq<Row>): seq<string> {
    if rows == [] then []
    else
      var n := |rows| - 1;
      var before := Keys(rows[..n]);
      if rows[n].duplicate && RowKey(rows[n]) !in before then before + [RowKey(rows[n])] else before
  }

  /** The first row of a group: it gives the group's number, hash and size. */
  function FirstRow(rows: seq<Row>, key: string): Option<Row> {
    if rows == [] then None
    else
      var n := |rows| - 1;
      match FirstRow(rows[..n], key)
      case Some(row) => Some(row)
      case None => if InGroup(rows[n], key) then Some(rows[n]) else None
  }

  predicate Agrees(row: Row, first: Row) { row.hash == first.hash && row.file.size == first.file.size }

  predicate AgreesWithFirst(rows: seq<Row>, row: Row) {
    row.duplicate && FirstRow(rows, RowKey(row)).Some? ==> Agrees(row, FirstRow(rows, RowKey(row)).value)
  }

  /** Every row agrees with the first row of its group. */
  predicate Consistent(rows: seq<Row>) {
    rows != [] ==> Consistent(rows[..|rows| - 1]) && AgreesWithFirst(rows[..|rows| - 1], rows[|rows| - 1])
  }

  lemma {:induction false} KeysHaveFirst(rows: seq<Row>, key: string)
    ensures key in Keys(rows) <==> FirstRow(rows, key).Some?
    ensures FirstRow(rows, key).Some? ==> InGroup(FirstRow(rows, key).value, key)
  {
    if rows != [] { KeysHaveFirst(rows[..|rows| - 1], key); }
  }

  lemma {:induction false} MembersExactly(rows: seq<Row>, key: string, f: FileRecord)
    ensures f in Members(rows, key) <==> exists row :: row in rows && InGroup(row, key) && row.file == f
  {
    if rows != [] {
      var n := |rows| - 1;
      MembersExactly(rows[..n], key, f);
      assert rows == rows[..n] + [rows[n]];
    }
  }

  lemma {:induction false} CheckedExactly(rows: seq<Row>, key: string, f: FileRecord)
    ensures f in Checked(rows, key) <==> exists row :: row in rows && InGroup(row, key) && row.selected && row.file == f
  {
    if rows != [] {
      var n := |rows| - 1;
      CheckedExactly(rows[..n], key, f);
      assert rows == rows[..n] + [rows[n]];
    }
  }

  // ------------------------------------------------------------------
  // The plan.

  /** Every physical copy of the group is checked. */
  predicate RemovesAll(naming: Naming, rows: seq<Row>, key: string) {
    |CopyKeys(naming, Checked(rows, key))| >= |CopyKeys(naming, Members(rows, key))|
  }

  function PlannedGroup(rows: seq<Row>, key: string): Planned
    requires FirstRow(rows, key).Some?
  {
    var first := FirstRow(rows, key).value;
    Planned(first.group, Request(DuplicateGroup(first.file.size, first.hash, Members(rows, key)), Checked(rows, key)))
  }

  predicate AllKeys(rows: seq<Row>, keys: seq<string>) { forall key :: key in keys ==> FirstRow(rows, key).Some? }

  /** The groups of `keys` with something checked; None if one would lose every copy. */
  function PlanGroups(naming: Naming, rows: seq<Row>, keys: seq<string>): Option<seq<Planned>>
    requires AllKeys(rows, keys)
  {
    if keys == [] then Some([])
    else
      var n := |keys| - 1;
      match PlanGroups(naming, rows, keys[..n])
      case None => None
      case Some(before) =>
        if Checked(rows, keys[n]) == [] then Some(before)
        else if RemovesAll(naming, rows, keys[n]) then None
        else Some(before + [PlannedGroup(rows, keys[n])])
  }

  function CountChecked(groups: seq<Planned>): nat {
    if groups == [] then 0 else CountChecked(groups[..|groups| - 1]) + |groups[|groups| - 1].request.selected|
  }

  lemma KeysAreAll(rows: seq<Row>)
    ensures AllKeys(rows, Keys(rows))
  {
    forall key | key in Keys(rows) ensures FirstRow(rows, key).Some? { KeysHaveFirst(rows, key); }
  }

  function PlanFor(naming: Naming, rows: seq<Row>): Result<Plan, PlanError> {
    KeysAreAll(rows);
    if !Consistent(rows) then Err(InconsistentGroup)
    else match PlanGroups(naming, rows, Keys(rows))
      case None => Err(WouldRemoveAllCopies)
      case Some(groups) =>
        if CountChecked(groups) == 0 then Err(NothingChecked) else Ok(Plan(groups, CountChecked(groups)))
  }

  // ------------------------------------------------------------------
  // What every plan keeps.

  lemma SubsetOfSameSize<T>(a: set<T>, b: set<T>)
    requires a <= b && |a| >= |b|
    ensures a == b
  {
    assert |b - a| == |b| - |a|;
  }

  lemma CheckedAreMembers(naming: Naming, rows: seq<Row>, key: string)
    ensures CopyKeys(naming, Checked(rows, key)) <= CopyKeys(naming, Members(rows, key))
  {
    forall f | f in Checked(rows, key) ensures f in Members(rows, key) {
      MembersExactly(rows, key, f);
      CheckedExactly(rows, key, f);
    }
  }

  /** A group loses every physical copy exactly when the copy of every member is
      checked through some row. */
  lemma RemovesAllExactly(naming: Naming, rows: seq<Row>, key: string)
    ensures RemovesAll(naming, rows, key)
       <==> forall m :: m in Members(rows, key) ==> CopyKeyOf(naming, m) in CopyKeys(naming, Checked(rows, key))
  {
    var checked, all := CopyKeys(naming, Checked(rows, key)), CopyKeys(naming, Members(rows, key));
    CheckedAreMembers(naming, rows, key);
    if RemovesAll(naming, rows, key) { SubsetOfSameSize(checked, all); }
    if forall m :: m in Members(rows, key) ==> CopyKeyOf(naming, m) in checked { assert all == checked; }
  }

  lemma {:induction false} PlannedExactly(naming: Naming, rows: seq<Row>, keys: seq<string>, g: Planned)
    requires AllKeys(rows, keys) && PlanGroups(naming, rows, keys).Some?
    ensures g in PlanGroups(naming, rows, keys).value
       <==> exists key :: key in keys && Checked(rows, key) != [] && g == PlannedGroup(rows, key)
  {
    if keys != [] {
      var n := |keys| - 1;
      PlannedExactly(naming, rows, keys[..n], g);
      KeysSplit(keys);
    }
  }

  lemma KeysSplit(keys: seq<string>)
    requires keys != []
    ensures forall key :: key in keys <==> key in keys[..|keys| - 1] || key == keys[|keys| - 1]
  {
    assert keys == keys[..|keys| - 1] + [keys[|keys| - 1]];
  }

  lemma {:induction false} RefusedGroup(naming: Naming, rows: seq<Row>, keys: seq<string>)
    requires AllKeys(rows, keys)
    ensures PlanGroups(naming, rows, keys).None?
       <==> exists key :: key in keys && Checked(rows, key) != [] && RemovesAll(naming, rows, key)
  {
    if keys != [] {
      RefusedGroup(naming, rows, keys[..|keys| - 1]);
      KeysSplit(keys);
    }
  }

  /** However rows were checked, a plan leaves in each of its groups a file whose
      physical copy is not checked, and asks for nothing that is not checked. */
  lemma PlanLeavesACopy(naming: Naming, rows: seq<Row>, g: Planned)
    requires PlanFor(naming, rows).Ok? && g in PlanFor(naming, rows).value.groups
    ensures exists m :: m in g.request.group.files && CopyKeyOf(naming, m) !in CopyKeys(naming, g.request.selected)
    ensures forall c :: c in g.request.selected ==>
              exists row :: row in rows && row.duplicate && row.selected && row.file == c
  {
    KeysAreAll(rows);
    PlannedExactly(naming, rows, Keys(rows), g);
    var key :| key in Keys(rows) && Checked(rows, key) != [] && g == PlannedGroup(rows, key);
    RefusedGroup(naming, rows, Keys(rows));
    RemovesAllExactly(naming, rows, key);
    forall c | c in g.request.selected
      ensures exists row :: row in rows && row.duplicate && row.selected && row.file == c
    {
      CheckedExactly(rows, key, c);
      var row :| row in rows && InGroup(row, key) && row.selected && row.file == c;
    }
  }

  /** Every checked duplicate row is asked for in a plan. */
  lemma PlanMissesNothing(naming: Naming, rows: seq<Row>, i: nat)
    requires PlanFor(naming, rows).Ok? && i < |rows| && rows[i].duplicate && rows[i].selected
    ensures exists g :: g in PlanFor(naming, rows).value.groups && rows[i].file in g.request.selected
  {
    var key := RowKey(rows[i]);
    KeysAreAll(rows);
    RowHasKey(rows, i);
    CheckedExactly(rows, key, rows[i].file);
    PlannedExactly(naming, rows, Keys(rows), PlannedGroup(rows, key));
    assert rows[i].file in PlannedGroup(rows, key).request.selected;
  }

  lemma {:induction false} RowHasKey(rows: seq<Row>, i: nat)
    requires i < |rows| && rows[i].duplicate
    ensures RowKey(rows[i]) in Keys(rows) && FirstRow(rows, RowKey(rows[i])).Some?
    decreases |rows|
  {
    var n := |rows| - 1;
    if i < n { RowHasKey(rows[..n], i); }
    KeysHaveFirst(rows, RowKey(rows[i]));
  }

  /** Consistent rows are refused exactly when some group with a checked row
      would lose every physical copy, or nothing is checked at all. */
  lemma RefusedExactly(naming: Naming, rows: seq<Row>)
    requires Consistent(rows)
    ensures PlanFor(naming, rows) == Err(WouldRemoveAllCopies)
       <==> exists key :: key in Keys(rows) && Checked(rows, key) != []
                          && forall m :: m in Members(rows, key) ==>
                               CopyKeyOf(naming, m) in CopyKeys(naming, Checked(rows, key))
  {
    KeysAreAll(rows);
    RefusedGroup(naming, rows, Keys(rows));
    forall key ensures RemovesAll(naming, rows, key)
       <==> forall m :: m in Members(rows, key) ==> CopyKeyOf(naming, m) in CopyKeys(naming, Checked(rows, key))
    {
      RemovesAllExactly(naming, rows, key);
    }
  }

  /** Two files are one physical copy exactly if they have the same identity or, both
      having none, the same path. */
  lemma SameCopyExactly(naming: Naming, a: FileRecord, b: FileRecord)
    ensures CopyKeyOf(naming, a) == CopyKeyOf(naming, b) <==>
              (a.identity == b.identity
               && (a.identity == Identity(0, 0) ==>
                     naming.lower(naming.clean(a.path)) == naming.lower(naming.clean(b.path))))
  {
  }

  // ------------------------------------------------------------------
  // When there is a plan.

  predicate SameGroup(a: Row, b: Row) { a.duplicate && b.duplicate && RowKey(a) == RowKey(b) }

  lemma {:induction false} FirstIsRow(rows: seq<Row>, key: string) returns (i: nat)
    requires FirstRow(rows, key).Some?
    ensures i < |rows| && FirstRow(rows, key) == Some(rows[i]) && InGroup(rows[i], key)
  {
    var n := |rows| - 1;
    if FirstRow(rows[..n], key).Some? { i := FirstIsRow(rows[..n], key); } else { i := n; }
  }

  /** Rows are consistent exactly when any two of a group agree on hash and size. */
  lemma {:induction false} ConsistentExactly(rows: seq<Row>)
    ensures Consistent(rows) <==>
              forall i, j :: 0 <= i < j < |rows| && SameGroup(rows[i], rows[j]) ==> Agrees(rows[i], rows[j])
  {
    if rows != [] {
      var n := |rows| - 1;
      var before, last := rows[..n], rows[n];
      ConsistentExactly(before);
      assert forall i :: 0 <= i < n ==> before[i] == rows[i];
      if last.duplicate && FirstRow(before, RowKey(last)).Some? {
        var i := FirstIsRow(before, RowKey(last));
        assert SameGroup(rows[i], rows[n]);
      } else if last.duplicate {
        forall i | 0 <= i < n ensures !SameGroup(rows[i], last) {
          if before[i].duplicate { RowHasKey(before, i); }
        }
      }
    }
  }

  predicate IsChecked(row: Row) { row.duplicate && row.selected }

  function CountRows(rows: seq<Row>): nat {
    if rows == [] then 0 else CountRows(rows[..|rows| - 1]) + if IsChecked(rows[|rows| - 1]) then 1 else 0
  }

  lemma {:induction false} CountRowsExactly(rows: seq<Row>)
    ensures CountRows(rows) == 0 <==> forall i :: 0 <= i < |rows| ==> !IsChecked(rows[i])
  {
    if rows != [] { CountRowsExactly(rows[..|rows| - 1]); }
  }

  function CheckedOf(rows: seq<Row>, keys: seq<string>): nat {
    if keys == [] then 0 else CheckedOf(rows, keys[..|keys| - 1]) + |Checked(rows, keys[|keys| - 1])|
  }

  lemma {:induction false} CountedByGroup(naming: Naming, rows: seq<Row>, keys: seq<string>)
    requires AllKeys(rows, keys) && PlanGroups(naming, rows, keys).Some?
    ensures CountChecked(PlanGroups(naming, rows, keys).value) == CheckedOf(rows, keys)
  {
    if keys != [] {
      var n := |keys| - 1;
      CountedByGroup(naming, rows, keys[..n]);
      var before := PlanGroups(naming, rows, keys[..n]).value;
      assert (before + [PlannedGroup(rows, keys[n])])[..|before|] == before;
    }
  }

  lemma {:induction false} CheckedOfOneMore(rows: seq<Row>, row: Row, keys: seq<string>)
    requires forall i, j :: 0 <= i < j < |keys| ==> keys[i] != keys[j]
    ensures CheckedOf(rows + [row], keys)
         == CheckedOf(rows, keys) + if IsChecked(row) && RowKey(row) in keys then 1 else 0
  {
    if keys != [] {
      var n := |keys| - 1;
      CheckedOfOneMore(rows, row, keys[..n]);
      KeysSplit(keys);
      assert (rows + [row])[..|rows|] == rows;
      assert RowKey(row) == keys[n] ==> RowKey(row) !in keys[..n];
    }
  }

  lemma {:induction false} KeysDistinct(rows: seq<Row>)
    ensures forall i, j :: 0 <= i < j < |Keys(rows)| ==> Keys(rows)[i] != Keys(rows)[j]
  {
    if rows != [] { KeysDistinct(rows[..|rows| - 1]); }
  }

  lemma {:induction false} AllCheckedCounted(rows: seq<Row>)
    ensures CheckedOf(rows, Keys(rows)) == CountRows(rows)
  {
    if rows != [] {
      var n := |rows| - 1;
      var before, last := rows[..n], rows[n];
      AllCheckedCounted(before);
      assert rows == before + [last];
      KeysDistinct(rows);
      KeysDistinct(before);
      KeysGrow(before, last);
      CheckedOfOneMore(before, last, Keys(before));
      if Keys(rows) != Keys(before) { NewGroupCounted(before, last); }
    }
  }

  lemma NewGroupCounted(before: seq<Row>, last: Row)
    requires last.duplicate && RowKey(last) !in Keys(before)
    ensures CheckedOf(before + [last], Keys(before) + [RowKey(last)])
         == CheckedOf(before + [last], Keys(before)) + if last.selected then 1 else 0
  {
    var keys := Keys(before);
    assert (keys + [RowKey(last)])[..|keys|] == keys;
    KeysHaveFirst(before, RowKey(last));
    NoFirstNoMembers(before, RowKey(last));
    OwnGroupGrows(before, last);
  }

  /** There is a plan exactly for consistent rows of which some are checked, but not
      all copies of a group; it counts every checked row once. */
  lemma PlannedExactlyWhen(naming: Naming, rows: seq<Row>)
    ensures PlanFor(naming, rows) == Err(InconsistentGroup) <==>
              exists i, j :: 0 <= i < j < |rows| && SameGroup(rows[i], rows[j]) && !Agrees(rows[i], rows[j])
    ensures PlanFor(naming, rows) == Err(NothingChecked) <==>
              Consistent(rows) && forall i :: 0 <= i < |rows| ==> !IsChecked(rows[i])
    ensures PlanFor(naming, rows).Ok? ==> PlanFor(naming, rows).value.selectedCount == CountRows(rows)
  {
    KeysAreAll(rows);
    ConsistentExactly(rows);
    CountRowsExactly(rows);
    AllCheckedCounted(rows);
    if PlanGroups(naming, rows, Keys(rows)).Some? {
      CountedByGroup(naming, rows, Keys(rows));
    } else {
      RefusedGroup(naming, rows, Keys(rows));
      var key :| key in Keys(rows) && Checked(rows, key) != [];
      CheckedExactly(rows, key, Checked(rows, key)[0]);
    }
  }

  lemma FilesOfGroup(rows: seq<Row>, first: Row, f: FileRecord)
    requires first.duplicate
    ensures f in Members(rows, RowKey(first)) <==> exists r :: r in rows && SameGroup(first, r) && r.file == f
    ensures f in Checked(rows, RowKey(first)) <==>
              exists r :: r in rows && SameGroup(first, r) && r.selected && r.file == f
  {
    var key := RowKey(first);
    MembersExactly(rows, key, f);
    CheckedExactly(rows, key, f);
    if r :| r in rows && SameGroup(first, r) && r.file == f { assert InGroup(r, key); }
    if r :| r in rows && SameGroup(first, r) && r.selected && r.file == f { assert InGroup(r, key); }
    if r :| r in rows && InGroup(r, key) && r.file == f { assert SameGroup(first, r); }
    if r :| r in rows && InGroup(r, key) && r.selected && r.file == f { assert SameGroup(first, r); }
  }

  /** The request holds the files of the row's group and those checked of them. */
  ghost predicate AsksForGroup(rows: seq<Row>, first: Row, r: Request) {
    && (forall f :: f in r.group.files <==> exists row :: row in rows && SameGroup(first, row) && row.file == f)
    && (forall f :: f in r.selected <==>
          exists row :: row in rows && SameGroup(first, row) && row.selected && row.file == f)
  }

  lemma AsksForFirst(rows: seq<Row>, first: Row, key: string, r: Request)
    requires InGroup(first, key) && r.group.files == Members(rows, key) && r.selected == Checked(rows, key)
    ensures AsksForGroup(rows, first, r)
  {
    forall f
      ensures f in r.group.files <==> exists row :: row in rows && SameGroup(first, row) && row.file == f
      ensures f in r.selected <==> exists row :: row in rows && SameGroup(first, row) && row.selected && row.file == f
    {
      FilesOfGroup(rows, first, f);
    }
  }

  /** What is asked for one group: its rows' files and the checked ones, under the
      hash, size and number of one of its rows. */
  lemma PlannedGroupExactly(naming: Naming, rows: seq<Row>, g: Planned) returns (i: nat)
    requires PlanFor(naming, rows).Ok? && g in PlanFor(naming, rows).value.groups
    ensures i < |rows| && rows[i].duplicate && g.groupNumber == rows[i].group
    ensures g.request.group.hash == rows[i].hash && g.request.group.size == rows[i].file.size
    ensures AsksForGroup(rows, rows[i], g.request)
  {
    var key := KeyOfPlanned(naming, rows, g);
    i := FirstIsRow(rows, key);
    AsksForFirst(rows, rows[i], key, g.request);
  }

  lemma KeyOfPlanned(naming: Naming, rows: seq<Row>, g: Planned) returns (key: string)
    requires PlanFor(naming, rows).Ok? && g in PlanFor(naming, rows).value.groups
    ensures FirstRow(rows, key).Some? && g == PlannedGroup(rows, key)
  {
    KeysAreAll(rows);
    PlannedExactly(naming, rows, Keys(rows), g);
    key :| key in Keys(rows) && g == PlannedGroup(rows, key);
  }

  // ------------------------------------------------------------------
  // As it runs.

  datatype Accumulator = Accumulator(groupNumber: int, hash: string, size: nat, files: seq<FileRecord>,
                                     selected: seq<FileRecord>)

  function AccumulatorOf(rows: seq<Row>, key: string): Accumulator
    requires FirstRow(rows, key).Some?
  {
    var first := FirstRow(rows, key).value;
    Accumulator(first.group, first.hash, first.file.size, Members(rows, key), Checked(rows, key))
  }

  ghost predicate Accumulated(rows: seq<Row>, groups: map<string, Accumulator>, order: seq<string>) {
    order == Keys(rows) && (forall key :: key in groups <==> key in order)
    && AllKeys(rows, order) && forall key :: key in groups ==> groups[key] == AccumulatorOf(rows, key)
  }

  lemma {:induction false} NoFirstNoMembers(rows: seq<Row>, key: string)
    requires FirstRow(rows, key).None?
    ensures Members(rows, key) == [] && Checked(rows, key) == []
  {
    if rows != [] { NoFirstNoMembers(rows[..|rows| - 1], key); }
  }

  lemma OtherGroupsStay(rows: seq<Row>, row: Row, key: string)
    requires !InGroup(row, key)
    ensures FirstRow(rows + [row], key) == FirstRow(rows, key)
    ensures Members(rows + [row], key) == Members(rows, key) && Checked(rows + [row], key) == Checked(rows, key)
  {
    assert (rows + [row])[..|rows|] == rows;
  }

  lemma OwnGroupGrows(rows: seq<Row>, row: Row)
    requires row.duplicate
    ensures var key, longer := RowKey(row), rows + [row];
            && FirstRow(longer, key) == (if FirstRow(rows, key).Some? then FirstRow(rows, key) else Some(row))
            && Members(longer, key) == Members(rows, key) + [row.file]
            && Checked(longer, key) == Checked(rows, key) + (if row.selected then [row.file] else [])
  {
    assert (rows + [row])[..|rows|] == rows;
  }

  lemma KeysGrow(rows: seq<Row>, row: Row)
    ensures Keys(rows + [row])
         == if row.duplicate && RowKey(row) !in Keys(rows) then Keys(rows) + [RowKey(row)] else Keys(rows)
    ensures Consistent(rows + [row]) <==> Consistent(rows) && AgreesWithFirst(rows, row)
  {
    assert (rows + [row])[..|rows|] == rows;
  }

  lemma AccumulatedStep(rows: seq<Row>, row: Row, groups: map<string, Accumulator>, order: seq<string>,
                        group: Accumulator)
    requires row.duplicate && Accumulated(rows, groups, order)
    requires var key := RowKey(row);
             group == if key in groups then groups[key] else Accumulator(row.group, row.hash, row.file.size, [], [])
    ensures var key := RowKey(row);
            Accumulated(rows + [row],
                        groups[key := group.(files := group.files + [row.file],
                                            selected := group.selected + if row.selected then [row.file] else [])],
                        if key in groups then order else order + [key])
  {
    var key := RowKey(row);
    KeysGrow(rows, row);
    OwnGroupGrows(rows, row);
    KeysHaveFirst(rows, key);
    if key !in groups { NoFirstNoMembers(rows, key); }
    forall k | k in groups && k != key ensures AccumulatorOf(rows, k) == groups[k] && !InGroup(row, k) {}
    forall k | k in order && k != key
      ensures FirstRow(rows + [row], k).Some? && AccumulatorOf(rows + [row], k) == AccumulatorOf(rows, k)
    {
      OtherGroupsStay(rows, row, k);
    }
  }

  lemma {:induction false} InconsistentStays(rows: seq<Row>, n: nat)
    requires n <= |rows| && !Consistent(rows[..n])
    ensures !Consistent(rows)
    decreases |rows|
  {
    if n < |rows| {
      assert rows[..|rows| - 1][..n] == rows[..n];
      InconsistentStays(rows[..|rows| - 1], n);
    } else {
      assert rows[..n] == rows;
    }
  }

  method AccumulateGroups(rows: seq<Row>) returns (ok: bool, groups: map<string, Accumulator>, order: seq<string>)
    ensures ok <==> Consistent(rows)
    ensures ok ==> Accumulated(rows, groups, order)
  {
    groups, order := map[], [];
    for i := 0 to |rows|
      invariant Consistent(rows[..i]) && Accumulated(rows[..i], groups, order)
    {
      var row := rows[i];
      assert rows[..i + 1] == rows[..i] + [row];
      KeysGrow(rows[..i], row);
      if !row.duplicate {
        forall k
          ensures FirstRow(rows[..i + 1], k) == FirstRow(rows[..i], k)
                  && Members(rows[..i + 1], k) == Members(rows[..i], k)
                         && Checked(rows[..i + 1], k) == Checked(rows[..i], k) { OtherGroupsStay(rows[..i], row, k); }
        continue;
      }
      var key := RowKey(row);
      KeysHaveFirst(rows[..i], key);
      var group := if key in groups then groups[key] else Accumulator(row.group, row.hash, row.file.size, [], []);
      if group.hash != row.hash || group.size != row.file.size {
        InconsistentStays(rows, i + 1);
        return false, groups, order;
      }
      AccumulatedStep(rows[..i], row, groups, order, group);
      order := if key in groups then order else order + [key];
      groups := groups[key := group.(files := group.files + [row.file],
                                     selected := group.selected + if row.selected then [row.file] else [])];
    }
    assert rows[..|rows|] == rows;
    ok := true;
  }

  lemma {:induction false} RefusalStays(naming: Naming, rows: seq<Row>, keys: seq<string>, n: nat)
    requires n <= |keys| && AllKeys(rows, keys) && AllKeys(rows, keys[..n]) && PlanGroups(naming, rows, keys[..n]).None?
    ensures PlanGroups(naming, rows, keys).None?
  {
    RefusedGroup(naming, rows, keys[..n]);
    RefusedGroup(naming, rows, keys);
  }

  method BuildRecyclePlan(naming: Naming, rows: seq<Row>) returns (r: Result<Plan, PlanError>)
    ensures r == PlanFor(naming, rows)
  {
    KeysAreAll(rows);
    var ok, accumulated, order := AccumulateGroups(rows);
    if !ok { return Err(InconsistentGroup); }
    var groups: seq<Planned> := [];
    var selectedCount := 0;
    for i := 0 to |order|
      invariant AllKeys(rows, order[..i]) && PlanGroups(naming, rows, order[..i]) == Some(groups)
      invariant selectedCount == CountChecked(groups)
    {
      assert order[..i + 1][..i] == order[..i] && order[i] in accumulated;
      var group := accumulated[order[i]];
      if |group.selected| == 0 { continue; }
      var allCopies, selectedCopies := CopyKeys(naming, group.files), CopyKeys(naming, group.selected);
      if |allCopies| == 0 || |selectedCopies| >= |allCopies| {
        RefusalStays(naming, rows, order, i + 1);
        return Err(WouldRemoveAllCopies);
      }
      var planned := Planned(group.groupNumber,
                             Request(DuplicateGroup(group.size, group.hash, group.files), group.selected));
      assert (groups + [planned])[..|groups|] == groups;
      groups := groups + [planned];
      selectedCount := selectedCount + |group.selected|;
    }
    assert order[..|order|] == order;
    if selectedCount == 0 { return Err(NothingChecked); }
    r := Ok(Plan(groups, selectedCount));
  }
}
