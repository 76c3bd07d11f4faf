/**
 The rows of the duplicate table: applying a keep rule to them, and what remains
 of them once files are gone.
 */
module DuplicateTable {
  import opened Records
  import opened RecycleRequest
  import opened RecyclePlan
  import opened KeepRules
  import opened SurvivingRows
  import opened Strings

  // ------------------------------------------------------------------
  // The rows of a scan.

  function RowOf(g: DuplicateGroup, groupNumber: nat, number: nat, file: FileRecord): Row {
    Row(file, Decimal(g.size) + ":" + g.hash, g.hash, groupNumber, number, true, false)
  }

  /** The rows of the first k files of a group, standing after `above` rows. */
  function RowsOfFiles(g: DuplicateGroup, groupNumber: nat, above: nat, k: nat): (rows: seq<Row>)
    requires k <= |g.files|
    ensures |rows| == k
  {
    if k == 0 then []
    else RowsOfFiles(g, groupNumber, above, k - 1) + [RowOf(g, groupNumber, above + k, g.files[k - 1])]
  }

  function RowsOf(groups: seq<DuplicateGroup>): seq<Row> {
    if groups == [] then []
    else
      var n := |groups| - 1;
      var above := RowsOf(groups[..n]);
      above + RowsOfFiles(groups[n], n + 1, |above|, |groups[n].files|)
  }

  /** Every row of a scan is a duplicate row keyed by its own size and hash. */
  lemma {:induction false} ScanRowsKeyed(groups: seq<DuplicateGroup>, row: Row)
    requires row in RowsOf(groups) && forall g, f :: g in groups && f in g.files ==> f.size == g.size
    ensures row.duplicate && !row.selected && row.key == Decimal(row.file.size) + ":" + row.hash
  {
    var n := |groups| - 1;
    var above := RowsOf(groups[..n]);
    if row in above {
      ScanRowsKeyed(groups[..n], row);
    } else {
      FileRowsKeyed(groups[n], n + 1, |above|, |groups[n].files|, row);
    }
  }

  lemma {:induction false} FileRowsKeyed(g: DuplicateGroup, groupNumber: nat, above: nat, k: nat, row: Row)
    requires k <= |g.files| && row in RowsOfFiles(g, groupNumber, above, k)
    ensures row.file in g.files && row.number > 0 && row == RowOf(g, groupNumber, row.number, row.file)
  {
    if row in RowsOfFiles(g, groupNumber, above, k - 1) {
      FileRowsKeyed(g, groupNumber, above, k - 1, row);
    } else {
      assert row.file == g.files[k - 1];
    }
  }

  /** How many rows stand above group n. */
  function Above(groups: seq<DuplicateGroup>, n: nat): nat
    requires n <= |groups|
  {
    if n == 0 then 0 else Above(groups, n - 1) + |groups[n - 1].files|
  }

  lemma {:induction false} AbovePrefix(groups: seq<DuplicateGroup>, m: nat, n: nat)
    requires n <= m <= |groups|
    ensures Above(groups[..m], n) == Above(groups, n)
  {
    if n > 0 { AbovePrefix(groups, m, n - 1); }
  }

  lemma {:induction false} FileRowAt(g: DuplicateGroup, groupNumber: nat, above: nat, k: nat, i: nat)
    requires i < k <= |g.files|
    ensures RowsOfFiles(g, groupNumber, above, k)[i] == RowOf(g, groupNumber, above + i + 1, g.files[i])
  {
    if i < k - 1 { FileRowAt(g, groupNumber, above, k - 1, i); }
  }

  lemma {:induction false} RowsCounted(groups: seq<DuplicateGroup>)
    ensures |RowsOf(groups)| == Above(groups, |groups|)
  {
    if groups != [] {
      var n := |groups| - 1;
      RowsCounted(groups[..n]);
      AbovePrefix(groups, n, n);
    }
  }

  /** Where file k of group n stands, and what its row says. */
  lemma {:induction false} ScanRowAt(groups: seq<DuplicateGroup>, n: nat, k: nat)
    requires n < |groups| && k < |groups[n].files|
    ensures var at := Above(groups, n) + k;
            && at < |RowsOf(groups)| == Above(groups, |groups|)
            && var row := RowsOf(groups)[at];
               && row.file == groups[n].files[k] && row.hash == groups[n].hash
               && row.group == n + 1 && row.number == at + 1 && row.duplicate && !row.selected
    decreases |groups|
  {
    var last := |groups| - 1;
    RowsCounted(groups);
    RowsCounted(groups[..last]);
    AbovePrefix(groups, last, last);
    if n < last {
      ScanRowAt(groups[..last], n, k);
      AbovePrefix(groups, last, n);
    } else {
      FileRowAt(groups[last], last + 1, Above(groups, last), |groups[last].files|, k);
    }
  }

  // ------------------------------------------------------------------
  // The groups a rule is applied to.

  predicate Shown(row: Row, key: string) { row.duplicate && row.key == key }

  function ShownFiles(rows: seq<Row>, key: string): seq<FileRecord> {
    if rows == [] then []
    else
      var n := |rows| - 1;
      ShownFiles(rows[..n], key) + if Shown(rows[n], key) then [rows[n].file] else []
  }

  function ShownKeys(rows: seq<Row>): seq<string> {
    if rows == [] then []
    else
      var n := |rows| - 1;
      var before := ShownKeys(rows[..n]);
      if rows[n].duplicate && rows[n].key !in before then before + [rows[n].key] else before
  }

  function FirstHash(rows: seq<Row>, key: string): string {
    if rows == [] then ""
    else
      var n := |rows| - 1;
      if key in ShownKeys(rows[..n]) then FirstHash(rows[..n], key)
      else if Shown(rows[n], key) then rows[n].hash else ""
  }

  function GroupFor(rows: seq<Row>, key: string): DuplicateGroup {
    var files := ShownFiles(rows, key);
    DuplicateGroup(if files == [] then 0 else files[0].size, FirstHash(rows, key), files)
  }

  function GroupsFor(rows: seq<Row>, keys: seq<string>): seq<DuplicateGroup> {
    if keys == [] then [] else GroupsFor(rows, keys[..|keys| - 1]) + [GroupFor(rows, keys[|keys| - 1])]
  }

  lemma {:induction false} ShownExactly(rows: seq<Row>, key: string, f: FileRecord)
    ensures f in ShownFiles(rows, key) <==> exists row :: row in rows && Shown(row, key) && row.file == f
  {
    if rows != [] {
      var n := |rows| - 1;
      ShownExactly(rows[..n], key, f);
      assert rows == rows[..n] + [rows[n]];
    }
  }

  lemma {:induction false} KeysShown(rows: seq<Row>, key: string)
    ensures key in ShownKeys(rows) <==> ShownFiles(rows, key) != []
  {
    if rows != [] { KeysShown(rows[..|rows| - 1], key); }
  }

  lemma {:induction false} GroupsExactly(rows: seq<Row>, keys: seq<string>, g: DuplicateGroup)
    ensures g in GroupsFor(rows, keys) <==> exists key :: key in keys && g == GroupFor(rows, key)
  {
    if keys != [] {
      var n := |keys| - 1;
      GroupsExactly(rows, keys[..n], g);
      assert keys == keys[..n] + [keys[n]];
    }
  }

  lemma {:induction false} SelectableExactly(groups: seq<DuplicateGroup>, g: DuplicateGroup)
    ensures g in Selectable(groups) <==> g in groups && |g.files| >= 2
  {
    if groups != [] {
      var n := |groups| - 1;
      SelectableExactly(groups[..n], g);
      assert groups == groups[..n] + [groups[n]];
    }
  }

  // ------------------------------------------------------------------
  // Marking.

  function MarkedKeys(naming: Naming, selections: seq<Selection>): set<Path> {
    set s, f | s in selections && f in s.marked :: naming.Key(f.path)
  }

  function Marked(naming: Naming, row: Row, marked: set<Path>): Row {
    row.(selected := row.duplicate && naming.Key(row.file.path) in marked)
  }

  function MarkRows(naming: Naming, rows: seq<Row>, marked: set<Path>): (r: seq<Row>)
    ensures |r| == |rows| && forall i :: 0 <= i < |rows| ==> r[i] == Marked(naming, rows[i], marked)
  {
    if rows == [] then [] else MarkRows(naming, rows[..|rows| - 1], marked) + [Marked(naming, rows[|rows| - 1], marked)]
  }

  /** Only duplicate rows are ever selected, those with a marked folded path, and
      nothing else of a row changes. */
  lemma SelectedExactly(naming: Naming, rows: seq<Row>, marked: set<Path>, i: nat)
    requires i < |rows|
    ensures var row := MarkRows(naming, rows, marked)[i];
            && (row.selected <==> rows[i].duplicate && naming.Key(rows[i].file.path) in marked)
            && row.file == rows[i].file && row.key == rows[i].key && row.hash == rows[i].hash
            && row.group == rows[i].group && row.number == rows[i].number && row.duplicate == rows[i].duplicate
  {
  }

  /** The outcome of a rule on the rows. */
  ghost predicate RuleOutcome(paths: Paths, policy: Policy, rows: seq<Row>, selections: seq<Selection>) {
    AreSelections(paths, policy, Selectable(GroupsFor(rows, ShownKeys(rows))), selections)
  }

  /** The selection made for a group with two rows or more. */
  lemma SelectionFor(paths: Paths, policy: Policy, rows: seq<Row>, selections: seq<Selection>, key: string)
    returns (s: Selection, k: nat)
    requires RuleOutcome(paths, policy, rows, selections) && |ShownFiles(rows, key)| >= 2
    ensures s in selections && s.group == GroupFor(rows, key) && InvariantHolds(s)
    ensures IsBest(paths, s.group.files, policy, k) && KeepsAt(s, k)
  {
    var groups := GroupsFor(rows, ShownKeys(rows));
    var g := GroupFor(rows, key);
    KeysShown(rows, key);
    GroupsExactly(rows, ShownKeys(rows), g);
    SelectableExactly(groups, g);
    var n :| 0 <= n < |Selectable(groups)| && Selectable(groups)[n] == g;
    s := selections[n];
    assert IsSelection(paths, policy, s);
    k :| IsBest(paths, s.group.files, policy, k) && KeepsAt(s, k);
  }

  lemma GroupOfSelection(paths: Paths, policy: Policy, rows: seq<Row>, selections: seq<Selection>, s: Selection)
    returns (key: string, k: nat)
    requires RuleOutcome(paths, policy, rows, selections) && s in selections
    ensures s.group == GroupFor(rows, key) && IsBest(paths, s.group.files, policy, k) && KeepsAt(s, k)
            && InvariantHolds(s)
  {
    var groups := GroupsFor(rows, ShownKeys(rows));
    var n :| 0 <= n < |selections| && selections[n] == s;
    assert s.group == Selectable(groups)[n] && IsSelection(paths, policy, s);
    k :| IsBest(paths, s.group.files, policy, k) && KeepsAt(s, k);
    SelectableExactly(groups, s.group);
    GroupsExactly(rows, ShownKeys(rows), s.group);
    key :| key in ShownKeys(rows) && s.group == GroupFor(rows, key);
  }

  /** The row is shown in the group and stays unselected. */
  predicate LeftOut(naming: Naming, row: Row, key: string, marked: set<Path>) {
    Shown(row, key) && !Marked(naming, row, marked).selected
  }

  /** File j of a shown group of two or more is not the one the rule keeps. */
  predicate NotKept(paths: Paths, policy: Policy, rows: seq<Row>, key: string, j: nat) {
    var files := ShownFiles(rows, key);
    |files| >= 2 && j < |files| && !IsBest(paths, files, policy, j)
  }

  /** The folded path is that of a file not kept, of whatever shown group. */
  ghost predicate Claimed(naming: Naming, paths: Paths, policy: Policy, rows: seq<Row>, folded: Path) {
    exists key: string, j: nat :: NotKept(paths, policy, rows, key, j)
      && naming.Key(ShownFiles(rows, key)[j].path) == folded
  }

  /** Where the rule succeeds, a group has one best file. */
  lemma OneKept(paths: Paths, policy: Policy, s: Selection, k: nat, j: nat)
    requires InvariantHolds(s) && KeepsAt(s, k)
    requires IsBest(paths, s.group.files, policy, k) && IsBest(paths, s.group.files, policy, j)
    ensures j == k
  {
    BestSamePath(paths, s.group.files, policy, k, j);
    InvariantExactly(s, k);
    if j != k { MarkedIfOther(s.group.files, k, j); }
  }

  /** The marked paths, read off the rows: those of the files not kept. */
  lemma MarkedExactly(naming: Naming, paths: Paths, policy: Policy, rows: seq<Row>, selections: seq<Selection>,
                      folded: Path)
    requires RuleOutcome(paths, policy, rows, selections)
    ensures folded in MarkedKeys(naming, selections) <==> Claimed(naming, paths, policy, rows, folded)
  {
    if folded in MarkedKeys(naming, selections) {
      var s, f :| s in selections && f in s.marked && naming.Key(f.path) == folded;
      var key, k := GroupOfSelection(paths, policy, rows, selections, s);
      var j := MarkedAt(s.group.files, k, f);
      if IsBest(paths, s.group.files, policy, j) { OneKept(paths, policy, s, k, j); }
      assert NotKept(paths, policy, rows, key, j);
    }
    if Claimed(naming, paths, policy, rows, folded) {
      var key: string, j: nat :| NotKept(paths, policy, rows, key, j)
        && naming.Key(ShownFiles(rows, key)[j].path) == folded;
      var s, k := SelectionFor(paths, policy, rows, selections, key);
      MarkedIfOther(s.group.files, k, j);
    }
  }

  lemma MarkedAt(files: seq<FileRecord>, k: nat, f: FileRecord) returns (j: nat)
    requires k < |files| && f in WithoutIndex(files, k)
    ensures j < |files| && j != k && files[j] == f
  {
    var at :| 0 <= at < |files| - 1 && WithoutIndex(files, k)[at] == f;
    j := if at < k then at else at + 1;
  }

  /** Two rows of a group are two entries of its files. */
  lemma {:induction false} TwoEntries(rows: seq<Row>, key: string, i: nat, j: nat) returns (a: nat, b: nat)
    requires i < j < |rows| && Shown(rows[i], key) && Shown(rows[j], key)
    ensures a < b < |ShownFiles(rows, key)|
    ensures ShownFiles(rows, key)[a] == rows[i].file && ShownFiles(rows, key)[b] == rows[j].file
  {
    var n := |rows| - 1;
    if j < n {
      a, b := TwoEntries(rows[..n], key, i, j);
    } else {
      ShownExactly(rows[..n], key, rows[i].file);
      assert rows[i] in rows[..n];
      a :| 0 <= a < |ShownFiles(rows[..n], key)| && ShownFiles(rows[..n], key)[a] == rows[i].file;
      b := |ShownFiles(rows[..n], key)|;
    }
  }

  /** Of the group exactly one row stays unselected, a row of the file. */
  ghost predicate LeavesOnly(naming: Naming, rows: seq<Row>, key: string, marked: set<Path>, keeper: FileRecord) {
    exists i :: 0 <= i < |rows| && LeftOut(naming, rows[i], key, marked) && rows[i].file == keeper
                && forall j :: 0 <= j < |rows| && LeftOut(naming, rows[j], key, marked) ==> j == i
  }

  /** The rows of a group other than the keeper's are selected, and the keeper
      has only one row. */
  lemma OthersSelected(naming: Naming, paths: Paths, policy: Policy, rows: seq<Row>, selections: seq<Selection>,
                       key: string, s: Selection, k: nat, i: nat, j: nat)
    requires RuleOutcome(paths, policy, rows, selections) && s in selections && s.group == GroupFor(rows, key)
    requires KeepsAt(s, k) && InvariantHolds(s) && i < |rows| && Shown(rows[i], key) && rows[i].file == s.keep
    requires j < |rows| && j != i && Shown(rows[j], key)
    ensures naming.Key(rows[j].file.path) in MarkedKeys(naming, selections)
  {
    var a, b := TwoEntries(rows, key, if i < j then i else j, if i < j then j else i);
    var at := if i < j then b else a;
    assert s.group.files[at] == rows[j].file;
    if at == k {
      MarkedIfOther(s.group.files, k, if i < j then a else b);
      InvariantExactly(s, k);
      assert false;
    }
    MarkedIfOther(s.group.files, k, at);
  }

  /** What a rule leaves of a group, read off the rows: exactly one row, that of
      the best file, unless a file not kept, of whatever group, has the best
      file's folded path; then none. */
  lemma LeftExactly(naming: Naming, paths: Paths, policy: Policy, rows: seq<Row>, selections: seq<Selection>,
                    key: string, k: nat)
    requires RuleOutcome(paths, policy, rows, selections) && |ShownFiles(rows, key)| >= 2
    requires IsBest(paths, ShownFiles(rows, key), policy, k)
    ensures var marked, keeper := MarkedKeys(naming, selections), ShownFiles(rows, key)[k];
            if Claimed(naming, paths, policy, rows, naming.Key(keeper.path)) then
              forall row :: row in rows ==> !LeftOut(naming, row, key, marked)
            else LeavesOnly(naming, rows, key, marked, keeper)
  {
    var marked := MarkedKeys(naming, selections);
    var s, kept := SelectionFor(paths, policy, rows, selections, key);
    OneKept(paths, policy, s, kept, k);
    MarkedExactly(naming, paths, policy, rows, selections, naming.Key(s.keep.path));
    ShownExactly(rows, key, s.keep);
    var row :| row in rows && Shown(row, key) && row.file == s.keep;
    var i :| 0 <= i < |rows| && rows[i] == row;
    forall j | 0 <= j < |rows| && j != i && Shown(rows[j], key) ensures !LeftOut(naming, rows[j], key, marked) {
      OthersSelected(naming, paths, policy, rows, selections, key, s, k, i, j);
    }
  }

  /** No two duplicate rows have the same folded path. */
  predicate FoldDistinct(naming: Naming, rows: seq<Row>) {
    forall i, j :: 0 <= i < j < |rows| && rows[i].duplicate && rows[j].duplicate
               ==> naming.Key(rows[i].file.path) != naming.Key(rows[j].file.path)
  }

  lemma SameRow(naming: Naming, rows: seq<Row>, a: Row, b: Row)
    requires FoldDistinct(naming, rows) && a in rows && b in rows && a.duplicate && b.duplicate
    requires naming.Key(a.file.path) == naming.Key(b.file.path)
    ensures a == b
  {
    var i :| 0 <= i < |rows| && rows[i] == a;
    var j :| 0 <= j < |rows| && rows[j] == b;
  }

  lemma {:induction false} ShownDistinct(naming: Naming, rows: seq<Row>, key: string)
    requires FoldDistinct(naming, rows)
    ensures DistinctKeys(naming, ShownFiles(rows, key))
  {
    if rows != [] {
      var n := |rows| - 1;
      ShownDistinct(naming, rows[..n], key);
      if Shown(rows[n], key) {
        forall f | f in ShownFiles(rows[..n], key) ensures naming.Key(f.path) != naming.Key(rows[n].file.path) {
          ShownExactly(rows[..n], key, f);
          var row :| row in rows[..n] && Shown(row, key) && row.file == f;
          var i :| 0 <= i < n && rows[i] == row;
        }
        LastFresh(naming, ShownFiles(rows[..n], key), rows[n].file);
      }
    }
  }

  lemma SameGroupSameFile(naming: Naming, rows: seq<Row>, a: FileRecord, b: FileRecord, keyA: string, keyB: string)
    requires FoldDistinct(naming, rows) && a in ShownFiles(rows, keyA) && b in ShownFiles(rows, keyB)
    requires naming.Key(a.path) == naming.Key(b.path)
    ensures a == b && keyA == keyB
  {
    ShownExactly(rows, keyA, a);
    ShownExactly(rows, keyB, b);
    var rowA :| rowA in rows && Shown(rowA, keyA) && rowA.file == a;
    var rowB :| rowB in rows && Shown(rowB, keyB) && rowB.file == b;
    SameRow(naming, rows, rowA, rowB);
  }

  lemma NothingClaimed(naming: Naming, paths: Paths, policy: Policy, rows: seq<Row>, key: string, k: nat)
    requires FoldDistinct(naming, rows) && |ShownFiles(rows, key)| >= 2
             && IsBest(paths, ShownFiles(rows, key), policy, k)
    ensures !Claimed(naming, paths, policy, rows, naming.Key(ShownFiles(rows, key)[k].path))
  {
    var keeper := ShownFiles(rows, key)[k];
    forall other: string, j: nat | NotKept(paths, policy, rows, other, j)
      ensures naming.Key(ShownFiles(rows, other)[j].path) != naming.Key(keeper.path)
    {
      var f := ShownFiles(rows, other)[j];
      if naming.Key(f.path) == naming.Key(keeper.path) {
        SameGroupSameFile(naming, rows, f, keeper, other, key);
        ShownDistinct(naming, rows, key);
      }
    }
  }

  /** With fold-distinct paths every group of two rows or more is left with
      exactly one unselected row, that of its best file. */
  lemma ExactlyOneLeft(naming: Naming, paths: Paths, policy: Policy, rows: seq<Row>, selections: seq<Selection>,
                       key: string)
    returns (k: nat)
    requires FoldDistinct(naming, rows) && RuleOutcome(paths, policy, rows, selections) && |ShownFiles(rows, key)| >= 2
    ensures IsBest(paths, ShownFiles(rows, key), policy, k)
    ensures LeavesOnly(naming, rows, key, MarkedKeys(naming, selections), ShownFiles(rows, key)[k])
  {
    var s;
    s, k := SelectionFor(paths, policy, rows, selections, key);
    NothingClaimed(naming, paths, policy, rows, key, k);
    LeftExactly(naming, paths, policy, rows, selections, key, k);
  }

  // ------------------------------------------------------------------
  // The table.

  class Table {
    var rows: seq<Row>

    constructor (initial: seq<Row>)
      ensures rows == initial
    {
      rows := initial;
    }

    /** Shows the groups of a scan, nothing selected. */
    method SetGroups(groups: seq<DuplicateGroup>)
      modifies this
      ensures rows == RowsOf(groups)
    {
      rows := [];
      for n := 0 to |groups|
        invariant rows == RowsOf(groups[..n])
      {
        var group := groups[n];
        assert groups[..n + 1][..n] == groups[..n];
        var key := Decimal(group.size) + ":" + group.hash;
        ghost var above := rows;
        for k := 0 to |group.files|
          invariant rows == above + RowsOfFiles(group, n + 1, |above|, k)
        {
          rows := rows + [Row(group.files[k], key, group.hash, n + 1, |rows| + 1, true, false)];
        }
      }
      assert groups[..|groups|] == groups;
    }

    /** Applies the rule, or leaves the selection as it is if the rule fails. */
    method ApplyPolicy(naming: Naming, paths: Paths, policy: Policy)
      returns (applied: bool, ghost selections: seq<Selection>)
      modifies this
      ensures !applied ==> rows == old(rows)
      ensures applied ==> Normalized(paths, policy).Ok?
                          && RuleOutcome(paths, Normalized(paths, policy).value, old(rows), selections)
                          && rows == MarkRows(naming, old(rows), MarkedKeys(naming, selections))
    {
      var groups := GroupRows(rows);
      var result := ApplySelectionPolicy(paths, groups, policy);
      if result.Err? { return false, []; }
      var marked := MarkedPaths(naming, result.value);
      var marking: seq<Row> := [];
      for i := 0 to |rows|
        invariant rows == old(rows) && marking == MarkRows(naming, rows[..i], marked)
      {
        assert rows[..i + 1][..i] == rows[..i];
        var selected := naming.Key(rows[i].file.path) in marked;
        marking := marking + [rows[i].(selected := rows[i].duplicate && selected)];
      }
      assert rows[..|rows|] == rows;
      rows := marking;
      applied, selections := true, result.value;
    }

    /** Drops the rows of deleted files and of groups left with one row. */
    method RemoveDeleted(deleted: set<Path>)
      modifies this
      ensures IsRenumbered(Survivors(old(rows), deleted), rows)
    {
      var filtered, counts := KeepRows(rows, deleted);
      rows := RenumberRows(filtered, counts);
    }
  }

  method MarkedPaths(naming: Naming, selections: seq<Selection>) returns (marked: set<Path>)
    ensures marked == MarkedKeys(naming, selections)
  {
    marked := {};
    for n := 0 to |selections|
      invariant marked == MarkedKeys(naming, selections[..n])
    {
      var s := selections[n];
      assert selections[..n + 1] == selections[..n] + [s];
      ghost var before := marked;
      for i := 0 to |s.marked|
        invariant marked == before + set f | f in s.marked[..i] :: naming.Key(f.path)
      {
        assert s.marked[..i + 1] == s.marked[..i] + [s.marked[i]];
        marked := marked + {naming.Key(s.marked[i].path)};
      }
      assert s.marked[..|s.marked|] == s.marked;
    }
    assert selections[..|selections|] == selections;
  }

  ghost predicate Grouped(rows: seq<Row>, byKey: map<string, seq<FileRecord>>, hashes: map<string, string>,
                          order: seq<string>) {
    order == ShownKeys(rows)
    && (forall key :: key in byKey <==> key in order) && (forall key :: key in hashes <==> key in order)
    && forall key :: key in order ==> byKey[key] == ShownFiles(rows, key) && hashes[key] == FirstHash(rows, key)
  }

  lemma OneMoreRow(rows: seq<Row>, row: Row, key: string)
    ensures ShownFiles(rows + [row], key) == ShownFiles(rows, key) + (if Shown(row, key) then [row.file] else [])
    ensures ShownKeys(rows + [row])
         == ShownKeys(rows) + (if row.duplicate && row.key !in ShownKeys(rows) then [row.key] else [])
    ensures key in ShownKeys(rows) ==> FirstHash(rows + [row], key) == FirstHash(rows, key)
    ensures key !in ShownKeys(rows) && Shown(row, key) ==> FirstHash(rows + [row], key) == row.hash
  {
    assert (rows + [row])[..|rows|] == rows;
  }

  method GroupRows(rows: seq<Row>) returns (groups: seq<DuplicateGroup>)
    ensures groups == GroupsFor(rows, ShownKeys(rows))
  {
    var byKey: map<string, seq<FileRecord>> := map[];
    var hashes: map<string, string> := map[];
    var order: seq<string> := [];
    for i := 0 to |rows|
      invariant Grouped(rows[..i], byKey, hashes, order)
    {
      var row := rows[i];
      assert rows[..i + 1] == rows[..i] + [row];
      forall key
        ensures ShownFiles(rows[..i + 1], key)
             == ShownFiles(rows[..i], key) + (if Shown(row, key) then [row.file] else [])
        ensures key in ShownKeys(rows[..i]) ==> FirstHash(rows[..i + 1], key) == FirstHash(rows[..i], key)
      {
        OneMoreRow(rows[..i], row, key);
      }
      OneMoreRow(rows[..i], row, row.key);
      KeysShown(rows[..i], row.key);
      if !row.duplicate { continue; }
      if row.key !in byKey {
        order := order + [row.key];
        hashes := hashes[row.key := row.hash];
      }
      byKey := byKey[row.key := (if row.key in byKey then byKey[row.key] else []) + [row.file]];
    }
    assert rows[..|rows|] == rows;
    groups := [];
    for n := 0 to |order|
      invariant groups == GroupsFor(rows, order[..n])
    {
      assert order[..n + 1][..n] == order[..n] && order[n] in byKey;
      KeysShown(rows, order[n]);
      var files := byKey[order[n]];
      groups := groups + [DuplicateGroup(files[0].size, hashes[order[n]], files)];
    }
    assert order[..|order|] == order;
  }
}
