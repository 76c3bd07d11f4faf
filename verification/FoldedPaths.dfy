/**
 Why the keep rule needs fold-distinct paths, and that the recycle plan does
 not: one group of two files whose names differ only in case, as a directory
 with case-sensitive names can hold them.
 */
module FoldedPaths {
  import opened Bytes
  import opened Records
  import opened Sorting
  import opened RecycleRequest
  import opened RecyclePlan
  import opened KeepRules
  import opened DuplicateTable

  lemma {:induction false} AgreeingRowsConsistent(rows: seq<Row>)
    requires forall i, j :: 0 <= i < |rows| && 0 <= j < |rows| ==> Agrees(rows[i], rows[j])
    ensures Consistent(rows)
  {
    if rows != [] {
      var n := |rows| - 1;
      AgreeingRowsConsistent(rows[..n]);
      FirstIsARow(rows[..n], RowKey(rows[n]));
    }
  }

  lemma {:induction false} FirstIsARow(rows: seq<Row>, key: string)
    ensures FirstRow(rows, key).Some? ==> exists i :: 0 <= i < |rows| && FirstRow(rows, key).value == rows[i]
  {
    if rows != [] { FirstIsARow(rows[..|rows| - 1], key); }
  }

  /** A group with every row selected is never planned. */
  lemma FullySelectedRefused(naming: Naming, rows: seq<Row>, i: nat)
    requires Consistent(rows) && i < |rows| && rows[i].duplicate && rows[i].selected
    requires forall row :: row in rows && InGroup(row, RowKey(rows[i])) ==> row.selected
    ensures PlanFor(naming, rows) == Err(WouldRemoveAllCopies)
  {
    var key := RowKey(rows[i]);
    RowHasKey(rows, i);
    CheckedExactly(rows, key, rows[i].file);
    forall m | m in Members(rows, key) ensures m in Checked(rows, key) {
      MembersExactly(rows, key, m);
      CheckedExactly(rows, key, m);
    }
    RecyclePlan.RefusedExactly(naming, rows);
  }

  // ------------------------------------------------------------------
  // One group of two.

  const NEWEST_FIRST := Policy(KEEP_NEWEST, [])

  /** A scanned group of two, the newer first, whose paths differ but fold together. */
  predicate TwoCases(naming: Naming, g: DuplicateGroup) {
    |g.files| == 2 && g.files[0].size == g.size == g.files[1].size && g.files[0].modifiedAt > g.files[1].modifiedAt
    && g.files[0].path != g.files[1].path && naming.Key(g.files[0].path) == naming.Key(g.files[1].path)
  }

  lemma TwoRows(g: DuplicateGroup)
    requires |g.files| == 2
    ensures RowsOf([g]) == [RowOf(g, 1, 1, g.files[0]), RowOf(g, 1, 2, g.files[1])]
  {
    assert [g][..0] == [];
    assert RowsOfFiles(g, 1, 0, 1) == [RowOf(g, 1, 1, g.files[0])];
    assert RowsOfFiles(g, 1, 0, 2) == [RowOf(g, 1, 1, g.files[0]), RowOf(g, 1, 2, g.files[1])];
  }

  lemma TwoShown(rows: seq<Row>, key: string)
    requires |rows| == 2 && Shown(rows[0], key) && Shown(rows[1], key)
    ensures ShownFiles(rows, key) == [rows[0].file, rows[1].file]
    ensures ShownKeys(rows) == [key] && FirstHash(rows, key) == rows[0].hash
  {
    var none: seq<Row> := [];
    assert rows[..1][..0] == none && rows[..1][0] == rows[0];
    assert ShownFiles(rows[..1], key) == [rows[0].file] && ShownKeys(rows[..1]) == [key];
    assert FirstHash(rows[..1], key) == rows[0].hash;
  }

  lemma OneGroupFor(rows: seq<Row>, key: string, g: DuplicateGroup)
    requires ShownKeys(rows) == [key] && GroupFor(rows, key) == g && |g.files| >= 2
    ensures Selectable(GroupsFor(rows, ShownKeys(rows))) == [g]
  {
    assert [key][..0] == [] && GroupsFor(rows, [key]) == [g];
    assert [g][..0] == [];
  }

  lemma KeepsNewer(paths: Paths, naming: Naming, g: DuplicateGroup)
    requires TwoCases(naming, g)
    ensures RightFor(paths, NEWEST_FIRST, g, Selection(g, g.files[0], [g.files[1]]))
  {
    var s := Selection(g, g.files[0], [g.files[1]]);
    StringLessTotal(g.files[0].path, g.files[0].path);
    assert IsBest(paths, g.files, NEWEST_FIRST, 0);
    assert KeepsAt(s, 0);
    InvariantExactly(s, 0);
  }

  lemma GroupShown(naming: Naming, paths: Paths, g: DuplicateGroup)
    requires TwoCases(naming, g)
    ensures RuleOutcome(paths, NEWEST_FIRST, RowsOf([g]), [Selection(g, g.files[0], [g.files[1]])])
  {
    OneGroupShown(g);
    KeepsNewer(paths, naming, g);
    OneSelection(paths, g, Selection(g, g.files[0], [g.files[1]]));
  }

  lemma OneGroupShown(g: DuplicateGroup)
    requires |g.files| == 2 && g.files[0].size == g.size
    ensures Selectable(GroupsFor(RowsOf([g]), ShownKeys(RowsOf([g])))) == [g]
  {
    var rows := RowsOf([g]);
    TwoRows(g);
    TwoShown(rows, rows[0].key);
    assert g.files == [g.files[0], g.files[1]];
    OneGroupFor(rows, rows[0].key, g);
  }

  lemma OneSelection(paths: Paths, g: DuplicateGroup, s: Selection)
    requires RightFor(paths, NEWEST_FIRST, g, s)
    ensures AreSelections(paths, NEWEST_FIRST, [g], [s])
  {
  }

  /** Both rows are selected, the keeper's included. */
  lemma BothSelected(naming: Naming, g: DuplicateGroup, after: seq<Row>)
    requires TwoCases(naming, g)
    requires after == MarkRows(naming, RowsOf([g]), MarkedKeys(naming, [Selection(g, g.files[0], [g.files[1]])]))
    ensures |after| == 2 && forall i :: 0 <= i < 2 ==> after[i] == RowOf(g, 1, i + 1, g.files[i]).(selected := true)
  {
    var s := Selection(g, g.files[0], [g.files[1]]);
    TwoRows(g);
    assert s in [s] && g.files[1] in s.marked;
    assert naming.Key(g.files[1].path) in MarkedKeys(naming, [s]);
  }

  lemma BothRefused(naming: Naming, g: DuplicateGroup, after: seq<Row>)
    requires |g.files| == 2 && g.files[0].size == g.size == g.files[1].size && |after| == 2
    requires forall i :: 0 <= i < 2 ==> after[i] == RowOf(g, 1, i + 1, g.files[i]).(selected := true)
    ensures PlanFor(naming, after) == Err(WouldRemoveAllCopies)
  {
    AgreeingRowsConsistent(after);
    forall row | row in after ensures row.selected {
      assert row == after[0] || row == after[1];
    }
    FullySelectedRefused(naming, after, 0);
  }

  /** For every scanned group of two whose paths fold together, keeping the newer
      selects both rows, the keeper's included; the recycle plan then refuses. */
  lemma FoldedPathsSelectAll(naming: Naming, paths: Paths, g: DuplicateGroup)
    returns (selections: seq<Selection>, after: seq<Row>)
    requires TwoCases(naming, g)
    ensures RuleOutcome(paths, NEWEST_FIRST, RowsOf([g]), selections)
    ensures after == MarkRows(naming, RowsOf([g]), MarkedKeys(naming, selections))
    ensures |after| == 2 && after[0].selected && after[1].selected
    ensures PlanFor(naming, after) == Err(WouldRemoveAllCopies)
  {
    selections := [Selection(g, g.files[0], [g.files[1]])];
    after := MarkRows(naming, RowsOf([g]), MarkedKeys(naming, selections));
    GroupShown(naming, paths, g);
    BothSelected(naming, g, after);
    BothRefused(naming, g, after);
  }

  // ------------------------------------------------------------------
  // A group the scan reports.

  function Same(path: Path): Path { path }

  function Lower(path: Path): Path {
    if path == "" then ""
    else [if 'A' <= path[0] <= 'Z' then path[0] - 'A' + 'a' else path[0]] + Lower(path[1..])
  }

  const SCOPE := Scope("D", Identity(1, 1), false)
  const NEWER := FileRecord("D/A", 1, 1, 2, "", Identity(1, 2), 1, 0, SCOPE)
  const OLDER := FileRecord("D/a", 1, 1, 1, "", Identity(1, 3), 1, 0, SCOPE)

  lemma SameFoldedPath()
    ensures Lower("D/A") == Lower("D/a") == "d/a"
  {
    assert "D/A"[1..] == "/A" && "D/a"[1..] == "/a" && "/A"[1..] == "A" && "/a"[1..] == "a";
    assert Lower("A") == "a" && Lower("a") == "a";
    assert Lower("/A") == "/a" && Lower("/a") == "/a";
  }

  /** Such a group: a valid scan result of two distinct physical files. */
  lemma TwoCasesExist() returns (naming: Naming, g: DuplicateGroup)
    ensures TwoCases(naming, g) && IsSha256(g.hash) && DistinctIdentities(g.files)
    ensures forall m :: m in g.files ==> GoodMember(g, m)
  {
    naming := Naming(Same, Lower, Lower);
    g := DuplicateGroup(1, seq(64, _ => '0'), [NEWER, OLDER]);
    SameFoldedPath();
  }
}
