/**
 From checked rows to the disk: which planned requests validation accepts, and
 what carrying one out leaves of the rows' group.
 */
module PlanGuarantees {
  import opened Records
  import opened FileSystem
  import opened ConsolidationItem
  import opened ConsolidationRequest
  import opened RecycleRequest
  import opened RecyclePlan
  import opened RequestGuarantees

  ghost predicate IsPlanned(naming: Naming, rows: seq<Row>, g: Planned) {
    PlanFor(naming, rows).Ok? && g in PlanFor(naming, rows).value.groups
  }

  /** The group of rows that a planned request is made of. */
  lemma PlannedGroupOf(naming: Naming, rows: seq<Row>, g: Planned) returns (key: string)
    requires IsPlanned(naming, rows, g)
    ensures Consistent(rows) && FirstRow(rows, key).Some? && g == PlannedGroup(rows, key)
    ensures Checked(rows, key) != [] && !RemovesAll(naming, rows, key)
  {
    KeysAreAll(rows);
    PlannedExactly(naming, rows, Keys(rows), g);
    RefusedGroup(naming, rows, Keys(rows));
    key :| key in Keys(rows) && Checked(rows, key) != [] && g == PlannedGroup(rows, key);
  }

  /** The checked files are among the members and stay distinct. */
  lemma {:induction false} CheckedDistinct(naming: Naming, rows: seq<Row>, key: string)
    requires DistinctKeys(naming, Members(rows, key)) && DistinctIdentities(Members(rows, key))
    ensures DistinctKeys(naming, Checked(rows, key)) && DistinctIdentities(Checked(rows, key))
  {
    if rows != [] {
      var n := |rows| - 1;
      var before, file := rows[..n], rows[n].file;
      if InGroup(rows[n], key) {
        LastFresh(naming, Members(before, key), file);
        CheckedDistinct(naming, before, key);
        forall c | c in Checked(before, key) ensures c in Members(before, key) {
          CheckedExactly(before, key, c);
          MembersExactly(before, key, c);
        }
        LastFresh(naming, Checked(before, key), file);
      } else {
        assert Members(rows, key) == Members(before, key) && Checked(rows, key) == Checked(before, key);
        CheckedDistinct(naming, before, key);
      }
    }
  }

  /** Files with identities are as many physical copies. */
  lemma {:induction false} CopiesAreFiles(naming: Naming, files: seq<FileRecord>)
    requires DistinctIdentities(files) && forall f :: f in files ==> f.identity != NO_IDENTITY
    ensures |CopyKeys(naming, files)| == |files|
  {
    if files == [] {
      assert CopyKeys(naming, files) == {};
    } else {
      var n := |files| - 1;
      var before, last := files[..n], files[n];
      assert files == before + [last];
      LastFresh(naming, before, last);
      CopiesAreFiles(naming, before);
      assert CopyKeys(naming, files) == CopyKeys(naming, before) + {CopyKeyOf(naming, last)};
      assert CopyKeyOf(naming, last) !in CopyKeys(naming, before);
    }
  }

  lemma FewerChecked(naming: Naming, rows: seq<Row>, key: string)
    requires !RemovesAll(naming, rows, key) && DistinctIdentities(Members(rows, key))
    requires DistinctIdentities(Checked(rows, key)) && forall m :: m in Members(rows, key) ==> m.identity != NO_IDENTITY
    ensures |Checked(rows, key)| < |Members(rows, key)|
  {
    CopiesAreFiles(naming, Members(rows, key));
    forall c | c in Checked(rows, key) ensures c.identity != NO_IDENTITY {
      CheckedExactly(rows, key, c);
      MembersExactly(rows, key, c);
    }
    CopiesAreFiles(naming, Checked(rows, key));
  }

  lemma CheckedAreChosen(naming: Naming, rows: seq<Row>, key: string)
    requires DistinctKeys(naming, Checked(rows, key))
    ensures GoodCandidates(naming, Members(rows, key), Checked(rows, key))
  {
    forall c | c in Checked(rows, key) ensures IsMember(naming, Members(rows, key), c) {
      CheckedExactly(rows, key, c);
      MembersExactly(rows, key, c);
      assert Stands(naming, c, c);
    }
  }

  /** Of the guards of validation only those on the group itself can still refuse
      a planned request: the plan has seen to all the others. */
  lemma AcceptedIfGroupGood(naming: Naming, rows: seq<Row>, g: Planned)
    requires IsPlanned(naming, rows, g)
    ensures Acceptable(naming, g.request) <==> IsSha256(g.request.group.hash) && GoodGroup(naming, g.request.group)
  {
    var key := PlannedGroupOf(naming, rows, g);
    if GoodGroup(naming, g.request.group) {
      CheckedDistinct(naming, rows, key);
      FewerChecked(naming, rows, key);
      CheckedAreChosen(naming, rows, key);
    }
  }

  /** A row as a scan that protects linked and streamed files shows it. */
  predicate GoodRow(row: Row) {
    row.file.path != "" && row.file.identity != NO_IDENTITY && row.file.linkCount == 1 && row.file.namedStreams == 0
    && IsSha256(row.hash)
  }

  /** The duplicate rows are good ones of different files. */
  ghost predicate ScanRows(rows: seq<Row>) {
    && (forall row :: row in rows && row.duplicate ==> GoodRow(row))
    && forall i, j :: 0 <= i < j < |rows| && rows[i].duplicate && rows[j].duplicate ==>
         rows[i].file.identity != rows[j].file.identity
  }

  lemma {:induction false} MembersDifferent(naming: Naming, rows: seq<Row>, key: string)
    requires ScanRows(rows)
    ensures DistinctIdentities(Members(rows, key))
  {
    if rows != [] {
      var n := |rows| - 1;
      var before := rows[..n];
      forall row | row in before && row.duplicate ensures GoodRow(row) { assert row in rows; }
      MembersDifferent(naming, before, key);
      if InGroup(rows[n], key) {
        forall m | m in Members(before, key) ensures m.identity != rows[n].file.identity {
          MembersExactly(before, key, m);
          var row :| row in before && InGroup(row, key) && row.file == m;
          var i :| 0 <= i < n && before[i] == row;
          assert rows[i] == row;
        }
        LastFresh(naming, Members(before, key), rows[n].file);
      }
    }
  }

  /** Every row of a group agrees with its first. */
  lemma {:induction false} AllAgree(rows: seq<Row>, key: string, row: Row)
    requires Consistent(rows) && row in rows && InGroup(row, key)
    ensures FirstRow(rows, key).Some? && Agrees(row, FirstRow(rows, key).value)
  {
    var n := |rows| - 1;
    if row in rows[..n] {
      AllAgree(rows[..n], key, row);
    } else {
      assert row == rows[n];
    }
  }

  lemma FirstInGroup(rows: seq<Row>, key: string)
    requires FirstRow(rows, key).Some?
    ensures FirstRow(rows, key).value in rows && FirstRow(rows, key).value.duplicate
  {
    FirstIsInRows(rows, key);
    KeysHaveFirst(rows, key);
  }

  lemma {:induction false} FirstIsInRows(rows: seq<Row>, key: string)
    requires FirstRow(rows, key).Some?
    ensures FirstRow(rows, key).value in rows
  {
    if FirstRow(rows[..|rows| - 1], key).Some? { FirstIsInRows(rows[..|rows| - 1], key); }
  }

  /** For the rows of a scan a planned request is accepted exactly when no two
      members of its group have the same folded path. */
  lemma AcceptedIfFoldDistinct(naming: Naming, rows: seq<Row>, g: Planned)
    requires IsPlanned(naming, rows, g) && ScanRows(rows)
    ensures Acceptable(naming, g.request) <==> DistinctKeys(naming, g.request.group.files)
  {
    var key := PlannedGroupOf(naming, rows, g);
    AcceptedIfGroupGood(naming, rows, g);
    MembersDifferent(naming, rows, key);
    FirstInGroup(rows, key);
    forall m | m in Members(rows, key) ensures GoodMember(g.request.group, m) {
      MembersExactly(rows, key, m);
      var row :| row in rows && InGroup(row, key) && row.file == m;
      AllAgree(rows, key, row);
    }
  }

  /** So the guarantee reaches the rows: carrying out an accepted planned request,
      whatever fails, leaves a row of its group, not checked, whose file is another
      than every candidate, unchanged and still named by its path. */
  lemma RowOfGroupKept(naming: Naming, rows: seq<Row>, g: Planned, v: ValidRequest, b: Batch, w: World)
    returns (row: Row)
    requires IsPlanned(naming, rows, g) && ScanRows(rows) && DistinctKeys(naming, g.request.group.files)
    requires Splits(naming, g.request, v) && CarriesOut(b, v) && Idle(w)
    ensures row in rows && row.duplicate && row.file in g.request.group.files && !row.selected
    ensures KeptWhole(b, w, row.file)
  {
    AcceptedIfFoldDistinct(naming, rows, g);
    var key := PlannedGroupOf(naming, rows, g);
    var k := OneMemberKept(naming, g.request, v, b, w);
    MembersExactly(rows, key, k);
    row :| row in rows && InGroup(row, key) && row.file == k;
    if row.selected {
      CheckedExactly(rows, key, k);
      KeeperNotChecked(naming, g.request, v, k);
      assert false;
    }
  }

  lemma KeeperNotChecked(naming: Naming, r: Request, v: ValidRequest, k: FileRecord)
    requires Acceptable(naming, r) && Splits(naming, r, v) && k in v.keepers
    ensures k !in r.selected
  {
    WithoutExactly(r.group.files, Identities(r.selected), k);
  }
}
