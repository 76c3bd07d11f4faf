/**
 The CSV report: one row per file, estimates that can be added up, and cells
 that no spreadsheet takes for a formula.
 */
module CsvReport {
  import opened Bytes
  import opened Records
  import opened Int64
  import opened Strings
  import opened ReportDocument
  import opened ReportWriter
  import opened CsvText
  import opened CsvWriter

  type Row = Cells

  const HEADER: Row := ["generatedAt", "scanFolder", "group", "sha256", "groupSize", "groupReclaimableBytes",
                        "reportReclaimableBytes", "path", "fileSize", "createdAt", "modifiedAt", "category", "root"]

  const GROUP_ESTIMATE := 5
  const REPORT_ESTIMATE := 6

  // ------------------------------------------------------------------
  // Formulas.

  function Trimmed(value: string): string {
    if value != "" && (IsSpace(value[0]) || value[0] == '\U{FEFF}') then Trimmed(value[1..]) else value
  }

  /** A spreadsheet would evaluate the cell. */
  predicate IsFormula(value: string) {
    Trimmed(value) != ""
    && (Trimmed(value)[0] in "=+-@" || value[0] == '\t' || value[0] == '\r' || value[0] == '\n')
  }

  function Guard(value: string): string {
    if value == "" then value
    else
      var trimmed := Trimmed(value);
      if trimmed == "" then value
      else if trimmed[0] == '=' || trimmed[0] == '+' || trimmed[0] == '-' || trimmed[0] == '@' then "'" + value
      else if value[0] == '\t' || value[0] == '\r' || value[0] == '\n' then "'" + value
      else value
  }

  /** No guarded cell is a formula; a harmless cell is kept, any other is kept
      behind one apostrophe. */
  lemma GuardedIsHarmless(value: string)
    ensures !IsFormula(Guard(value))
    ensures if IsFormula(value) then Guard(value) == "'" + value else Guard(value) == value
    ensures Guard(Guard(value)) == Guard(value)
  {
    assert Trimmed("'" + value) == "'" + value;
  }

  // ------------------------------------------------------------------
  // Rows.

  function CsvRow(generatedAt: string, folder: string, groupIndex: nat, groupSize: int, hash: string, file: File,
                  groupEstimate: string, reportEstimate: string): Row {
    [Guard(generatedAt), Guard(folder), FormatInt(groupIndex + 1), Guard(hash), FormatInt(groupSize), groupEstimate,
     reportEstimate, Guard(file.path), FormatInt(file.size), Guard(file.createdAt), Guard(file.modifiedAt),
     Guard(file.category), Guard(file.root)]
  }

  /** Row i of group n; `before` rows stand above it. */
  function RowAt(d: Document, n: nat, i: nat, before: nat): Row {
    if n >= |d.groups| || i >= |d.groups[n].files| then HEADER
    else
      var g := d.groups[n];
      CsvRow(d.generatedAt, d.folder, n, g.size, g.hash, g.files[i],
             if i == 0 then FormatInt(Reclaimable(g.size, |g.files|)) else "",
             if before == 0 then FormatInt(d.reclaimableBytes) else "")
  }

  /** What belongs under a heading, in the row of file i of group n. */
  function CellUnder(heading: string, d: Document, n: nat, i: nat, before: nat): string
    requires n < |d.groups| && i < |d.groups[n].files|
  {
    var g, f := d.groups[n], d.groups[n].files[i];
    if heading == "generatedAt" then Guard(d.generatedAt)
    else if heading == "scanFolder" then Guard(d.folder)
    else if heading == "group" then FormatInt(n + 1)
    else if heading == "sha256" then Guard(g.hash)
    else if heading == "groupSize" then FormatInt(g.size)
    else if heading == "groupReclaimableBytes" then
      if i == 0 then FormatInt(Reclaimable(g.size, |g.files|)) else ""
    else if heading == "reportReclaimableBytes" then if before == 0 then FormatInt(d.reclaimableBytes) else ""
    else if heading == "path" then Guard(f.path)
    else if heading == "fileSize" then FormatInt(f.size)
    else if heading == "createdAt" then Guard(f.createdAt)
    else if heading == "modifiedAt" then Guard(f.modifiedAt)
    else if heading == "category" then Guard(f.category)
    else if heading == "root" then Guard(f.root)
    else ""
  }

  lemma FirstCells(d: Document, n: nat, i: nat, before: nat, column: nat)
    requires n < |d.groups| && i < |d.groups[n].files| && column < 7
    ensures RowAt(d, n, i, before)[column] == CellUnder(HEADER[column], d, n, i, before)
  {
  }

  lemma LastCells(d: Document, n: nat, i: nat, before: nat, column: nat)
    requires n < |d.groups| && i < |d.groups[n].files| && 7 <= column < |HEADER|
    ensures RowAt(d, n, i, before)[column] == CellUnder(HEADER[column], d, n, i, before)
  {
  }

  /** Every cell stands under its heading. */
  lemma CellsUnderHeadings(d: Document, n: nat, i: nat, before: nat, column: nat)
    requires n < |d.groups| && i < |d.groups[n].files| && column < |HEADER|
    ensures |RowAt(d, n, i, before)| == |HEADER|
    ensures RowAt(d, n, i, before)[column] == CellUnder(HEADER[column], d, n, i, before)
  {
    if column < 7 { FirstCells(d, n, i, before, column); } else { LastCells(d, n, i, before, column); }
  }

  /** What makes a row; the order of the rows is the same whatever they hold. */
  type Maker = (nat, nat, nat) -> Row

  /** `make` makes the rows of the document. */
  ghost predicate Makes(make: Maker, d: Document) {
    forall n, i, before {:trigger RowAt(d, n, i, before)} :: make(n, i, before) == RowAt(d, n, i, before)
  }

  /** The rows of the first k files of group n. */
  function GroupRows(make: Maker, n: nat, k: nat, before: nat): (rows: seq<Row>)
    ensures |rows| == k
  {
    if k == 0 then [] else GroupRows(make, n, k - 1, before) + [make(n, k - 1, before + k - 1)]
  }

  /** The rows of the first n groups; `counts` are their numbers of files. */
  function DataRows(make: Maker, counts: seq<nat>, n: nat): seq<Row>
    requires n <= |counts|
  {
    if n == 0 then []
    else
      var above := DataRows(make, counts, n - 1);
      above + GroupRows(make, n - 1, counts[n - 1], |above|)
  }

  function AllRows(make: Maker, counts: seq<nat>): seq<Row> { [HEADER] + DataRows(make, counts, |counts|) }

  /** The rows of a document. */
  function DocumentRows(make: Maker, d: Document): seq<Row> { AllRows(make, Counts(d.groups)) }

  function Counts(groups: seq<Group>): (counts: seq<nat>)
    ensures |counts| == |groups|
  {
    if groups == [] then [] else Counts(groups[..|groups| - 1]) + [|groups[|groups| - 1].files|]
  }

  lemma {:induction false} CountAt(groups: seq<Group>, i: nat)
    requires i < |groups|
    ensures Counts(groups)[i] == |groups[i].files|
  {
    if i < |groups| - 1 { CountAt(groups[..|groups| - 1], i); }
  }

  lemma OneMoreGroupOfRows(make: Maker, counts: seq<nat>, n: nat)
    requires n < |counts|
    ensures var above := DataRows(make, counts, n);
            DataRows(make, counts, n + 1) == above + GroupRows(make, n, counts[n], |above|)
  {
  }

  // ------------------------------------------------------------------
  // What the columns say.

  /** The number in a cell, none in an empty one. */
  function CellValue(cell: string): int {
    if cell == "" then 0 else if cell[0] == '-' then -(Digits(cell[1..]) as int) else Digits(cell)
  }

  function Digits(s: string): nat { if forall i :: 0 <= i < |s| ==> IsDigit(s[i]) then Value(s) else 0 }

  lemma CellOfNumber(n: int)
    ensures FormatInt(n) != "" && CellValue(FormatInt(n)) == n
  {
    var m := if n < 0 then -n else n;
    ValueOfDecimal(m);
    if n < 0 { assert FormatInt(n)[1..] == Decimal(m); } else { assert IsDigit(FormatInt(n)[0]); }
  }

  predicate IsWide(row: Row) { |row| == |HEADER| }

  predicate AllWide(rows: seq<Row>) { forall i :: 0 <= i < |rows| ==> IsWide(rows[i]) }

  function ColumnSum(rows: seq<Row>): int
    requires AllWide(rows)
  {
    if rows == [] then 0
    else
      var n := |rows| - 1;
      assert IsWide(rows[n]);
      ColumnSum(rows[..n]) + CellValue(rows[n][GROUP_ESTIMATE])
  }

  lemma {:induction false} ColumnSumAppend(a: seq<Row>, b: seq<Row>)
    requires AllWide(a) && AllWide(b)
    ensures AllWide(a + b) && ColumnSum(a + b) == ColumnSum(a) + ColumnSum(b)
    decreases |b|
  {
    assert AllWide(a + b) by {
      forall i | 0 <= i < |a + b| ensures IsWide((a + b)[i]) {
        if i < |a| { assert IsWide(a[i]); } else { assert IsWide(b[i - |a|]); }
      }
    }
    if b == [] {
      assert a + b == a;
    } else {
      var n := |b| - 1;
      assert AllWide(b[..n]);
      ColumnSumAppend(a, b[..n]);
      assert (a + b)[..|a + b| - 1] == a + b[..n] && (a + b)[|a + b| - 1] == b[n];
    }
  }

  lemma RowEstimate(make: Maker, d: Document, n: nat, i: nat, before: nat)
    requires Makes(make, d) && n < |d.groups| && i < |d.groups[n].files|
    ensures IsWide(make(n, i, before))
    ensures CellValue(make(n, i, before)[GROUP_ESTIMATE])
         == if i == 0 then Reclaimable(d.groups[n].size, |d.groups[n].files|) else 0
    ensures make(n, i, before)[REPORT_ESTIMATE] == if before == 0 then FormatInt(d.reclaimableBytes) else ""
  {
    RowCells(d, n, i, before, make(n, i, before));
    NumberCell(Reclaimable(d.groups[n].size, |d.groups[n].files|), i, make(n, i, before)[GROUP_ESTIMATE]);
  }

  lemma RowCells(d: Document, n: nat, i: nat, before: nat, row: Row)
    requires n < |d.groups| && i < |d.groups[n].files| && row == RowAt(d, n, i, before)
    ensures IsWide(row)
    ensures row[GROUP_ESTIMATE] == if i == 0 then FormatInt(Reclaimable(d.groups[n].size, |d.groups[n].files|)) else ""
    ensures row[REPORT_ESTIMATE] == if before == 0 then FormatInt(d.reclaimableBytes) else ""
  {
  }

  lemma NumberCell(estimate: int, i: nat, cell: string)
    requires cell == if i == 0 then FormatInt(estimate) else ""
    ensures CellValue(cell) == if i == 0 then estimate else 0
  {
    CellOfNumber(estimate);
  }

  lemma OneRowSum(row: Row)
    requires IsWide(row)
    ensures AllWide([row]) && ColumnSum([row]) == CellValue(row[GROUP_ESTIMATE])
  {
    var none: seq<Row> := [];
    assert [row][..0] == none && ColumnSum(none) == 0;
  }

  /** Row i of a group carries the group's estimate if it is the first. */
  ghost predicate Carries(row: Row, i: nat, estimate: int) {
    IsWide(row) && CellValue(row[GROUP_ESTIMATE]) == if i == 0 then estimate else 0
  }

  ghost predicate RowCarries(make: Maker, n: nat, before: nat, i: nat, estimate: int) {
    Carries(make(n, i, before + i), i, estimate)
  }

  ghost predicate AllCarry(make: Maker, n: nat, before: nat, k: nat, estimate: int) {
    forall i: nat :: i < k ==> RowCarries(make, n, before, i, estimate)
  }

  lemma OneRowMore(rows: seq<Row>, row: Row, i: nat, estimate: int)
    requires AllWide(rows) && Carries(row, i, estimate)
    ensures AllWide(rows + [row]) && ColumnSum(rows + [row]) == ColumnSum(rows) + if i == 0 then estimate else 0
  {
    OneRowSum(row);
    ColumnSumAppend(rows, [row]);
  }

  lemma {:induction false} GroupRowsSum(make: Maker, n: nat, k: nat, before: nat, estimate: int)
    requires AllCarry(make, n, before, k, estimate)
    ensures AllWide(GroupRows(make, n, k, before))
    ensures ColumnSum(GroupRows(make, n, k, before)) == if k == 0 then 0 else estimate
  {
    if k > 0 {
      GroupRowsSum(make, n, k - 1, before, estimate);
      assert RowCarries(make, n, before, k - 1, estimate);
      OneRowMore(GroupRows(make, n, k - 1, before), make(n, k - 1, before + (k - 1)), k - 1, estimate);
    }
  }

  /** The estimate of every group. */
  function GroupEstimates(groups: seq<Group>): (xs: seq<int>)
    ensures |xs| == |groups|
  {
    if groups == [] then []
    else
      var last := groups[|groups| - 1];
      GroupEstimates(groups[..|groups| - 1]) + [Reclaimable(last.size, |last.files|)]
  }

  lemma {:induction false} GroupEstimateAt(groups: seq<Group>, i: nat)
    requires i < |groups|
    ensures GroupEstimates(groups)[i] == Reclaimable(groups[i].size, |groups[i].files|)
  {
    if i < |groups| - 1 { GroupEstimateAt(groups[..|groups| - 1], i); }
  }

  function PlainSum(xs: seq<int>, n: nat): int
    requires n <= |xs|
  {
    if n == 0 then 0 else PlainSum(xs, n - 1) + xs[n - 1]
  }

  /** The group-estimate column adds up to the groups' estimates: a group is
      counted once, however many rows it has. */
  lemma ColumnSumsEstimates(make: Maker, d: Document, n: nat)
    requires Makes(make, d) && n <= |d.groups|
    ensures AllWide(DataRows(make, Counts(d.groups), n))
    ensures ColumnSum(DataRows(make, Counts(d.groups), n)) == PlainSum(GroupEstimates(d.groups), n)
  {
    forall i | 0 <= i < |d.groups|
      ensures Counts(d.groups)[i] == |d.groups[i].files|
      ensures GroupEstimates(d.groups)[i] == Reclaimable(d.groups[i].size, |d.groups[i].files|)
    {
      CountAt(d.groups, i);
      GroupEstimateAt(d.groups, i);
    }
    SumOfGroups(make, d, Counts(d.groups), GroupEstimates(d.groups), n);
  }

  lemma {:induction false} SumOfGroups(make: Maker, d: Document, counts: seq<nat>, estimates: seq<int>, n: nat)
    requires Makes(make, d) && n <= |d.groups| == |counts| == |estimates|
    requires forall i :: 0 <= i < |counts| ==> counts[i] == |d.groups[i].files|
    requires forall i :: 0 <= i < |counts| ==> estimates[i] == Reclaimable(d.groups[i].size, |d.groups[i].files|)
    ensures AllWide(DataRows(make, counts, n))
    ensures ColumnSum(DataRows(make, counts, n)) == PlainSum(estimates, n)
  {
    if n > 0 {
      SumOfGroups(make, d, counts, estimates, n - 1);
      OneGroupSum(make, d, n - 1, DataRows(make, counts, n - 1));
    }
  }

  lemma RowsCarry(make: Maker, d: Document, n: nat, before: nat)
    requires Makes(make, d) && n < |d.groups|
    ensures AllCarry(make, n, before, |d.groups[n].files|, Reclaimable(d.groups[n].size, |d.groups[n].files|))
  {
    forall i: nat | i < |d.groups[n].files|
      ensures RowCarries(make, n, before, i, Reclaimable(d.groups[n].size, |d.groups[n].files|))
    {
      RowEstimate(make, d, n, i, before + i);
    }
  }

  lemma OneGroupSum(make: Maker, d: Document, n: nat, above: seq<Row>)
    requires Makes(make, d) && n < |d.groups| && AllWide(above)
    ensures var rows := above + GroupRows(make, n, |d.groups[n].files|, |above|);
            AllWide(rows) && ColumnSum(rows) == ColumnSum(above) + Reclaimable(d.groups[n].size, |d.groups[n].files|)
  {
    var k := |d.groups[n].files|;
    RowsCarry(make, d, n, |above|);
    GroupRowsSum(make, n, k, |above|, Reclaimable(d.groups[n].size, k));
    ColumnSumAppend(above, GroupRows(make, n, k, |above|));
  }

  function Estimates(groups: seq<DuplicateGroup>): (xs: seq<int>)
    ensures |xs| == |groups|
  {
    if groups == [] then []
    else
      var last := groups[|groups| - 1];
      Estimates(groups[..|groups| - 1]) + [Reclaimable(last.size, |last.files|)]
  }

  lemma {:induction false} EstimateAt(groups: seq<DuplicateGroup>, i: nat)
    requires i < |groups|
    ensures Estimates(groups)[i] == Reclaimable(groups[i].size, |groups[i].files|)
  {
    if i < |groups| - 1 { EstimateAt(groups[..|groups| - 1], i); }
  }

  function WrappedSum(xs: seq<int>, n: nat): int
    requires n <= |xs|
  {
    if n == 0 then 0 else Wrap(WrappedSum(xs, n - 1) + xs[n - 1])
  }

  lemma WrapSum(a: int, b: int)
    ensures Wrap(a + b) == Wrap(Wrap(a) + b)
  {
    WrapAdd(a, b);
  }

  /** Wrapping at every step or once at the end is the same. */
  lemma {:induction false} WrapOnce(xs: seq<int>, n: nat)
    requires n <= |xs|
    ensures Wrap(PlainSum(xs, n)) == WrappedSum(xs, n)
  {
    if n == 0 {
      WrapExactly(0);
    } else {
      WrapOnce(xs, n - 1);
      WrapSum(PlainSum(xs, n - 1), xs[n - 1]);
    }
  }

  lemma {:induction false} TotalIsWrapped(groups: seq<DuplicateGroup>, n: nat)
    requires n <= |groups|
    ensures ReclaimableTotal(groups[..n]) == WrappedSum(Estimates(groups), n)
  {
    if n > 0 {
      TotalIsWrapped(groups, n - 1);
      OneMoreGroup(groups, n - 1);
      EstimateAt(groups, n - 1);
    }
  }

  lemma SameEstimates(stamp: Stamp, groups: seq<DuplicateGroup>)
    ensures GroupEstimates(GroupsOf(stamp, groups)) == Estimates(groups)
  {
    var exported := GroupsOf(stamp, groups);
    forall i | 0 <= i < |groups| ensures GroupEstimates(exported)[i] == Estimates(groups)[i] {
      SameEstimate(stamp, groups, exported, i);
    }
  }

  lemma SameEstimate(stamp: Stamp, groups: seq<DuplicateGroup>, exported: seq<Group>, i: nat)
    requires i < |groups| == |exported| && exported[i] == GroupOf(stamp, groups[i])
    ensures GroupEstimates(exported)[i] == Estimates(groups)[i]
  {
    GroupEstimateAt(exported, i);
    EstimateAt(groups, i);
  }

  lemma EstimatesWrapToTotal(stamp: Stamp, groups: seq<DuplicateGroup>)
    ensures Wrap(PlainSum(GroupEstimates(GroupsOf(stamp, groups)), |groups|)) == ReclaimableTotal(groups)
  {
    SameEstimates(stamp, groups);
    WrapOnce(Estimates(groups), |groups|);
    TotalIsWrapped(groups, |groups|);
    assert groups[..|groups|] == groups;
  }

  /** `d` is the document of the groups, with `total` as its total. */
  ghost predicate Matches(d: Document, stamp: Stamp, folder: string, groups: seq<DuplicateGroup>, generatedAt: int,
                          total: int) {
    d.generatedAt == stamp(generatedAt) && d.folder == folder && d.reclaimableBytes == total
      && d.groups == GroupsOf(stamp, groups)
  }

  lemma DocumentMatches(stamp: Stamp, folder: string, groups: seq<DuplicateGroup>, generatedAt: int)
    ensures Matches(DocumentOf(stamp, folder, groups, generatedAt), stamp, folder, groups, generatedAt,
                    ReclaimableTotal(groups))
  {
  }

  lemma ColumnAddsUp(make: Maker, d: Document, stamp: Stamp, folder: string, groups: seq<DuplicateGroup>,
                     generatedAt: int)
    requires Makes(make, d) && Matches(d, stamp, folder, groups, generatedAt, ReclaimableTotal(groups))
    ensures AllWide(DataRows(make, Counts(d.groups), |d.groups|))
    ensures Wrap(ColumnSum(DataRows(make, Counts(d.groups), |d.groups|))) == d.reclaimableBytes
  {
    ColumnSumsEstimates(make, d, |d.groups|);
    EstimatesWrapToTotal(stamp, groups);
  }

  /** For every list of groups the group-estimate column adds up to the report's
      total, in the 64 bits that total has. */
  lemma ColumnAddsUpToTotal(make: Maker, stamp: Stamp, folder: string, groups: seq<DuplicateGroup>, generatedAt: int)
    requires Makes(make, DocumentOf(stamp, folder, groups, generatedAt))
    ensures var d := DocumentOf(stamp, folder, groups, generatedAt);
            var rows := DataRows(make, Counts(d.groups), |d.groups|);
            AllWide(rows) && Wrap(ColumnSum(rows)) == d.reclaimableBytes
  {
    DocumentMatches(stamp, folder, groups, generatedAt);
    ColumnAddsUp(make, DocumentOf(stamp, folder, groups, generatedAt), stamp, folder, groups, generatedAt);
  }

  lemma {:induction false} GroupRowAt(make: Maker, n: nat, k: nat, before: nat, i: nat)
    requires i < k
    ensures GroupRows(make, n, k, before)[i] == make(n, i, before + i)
  {
    if i < k - 1 { GroupRowAt(make, n, k - 1, before, i); }
  }

  /** The report estimate stands in the first row and in no other. */
  lemma {:induction false} ReportEstimateOnce(make: Maker, d: Document, n: nat, i: nat)
    requires Makes(make, d) && n <= |d.groups| && i < |DataRows(make, Counts(d.groups), n)|
    ensures IsWide(DataRows(make, Counts(d.groups), n)[i])
    ensures DataRows(make, Counts(d.groups), n)[i][REPORT_ESTIMATE]
         == if i == 0 then FormatInt(d.reclaimableBytes) else ""
  {
    var above := DataRows(make, Counts(d.groups), n - 1);
    if i < |above| {
      ReportEstimateOnce(make, d, n - 1, i);
    } else {
      var k := i - |above|;
      CountAt(d.groups, n - 1);
      GroupRowAt(make, n - 1, Counts(d.groups)[n - 1], |above|, k);
      RowEstimate(make, d, n - 1, k, |above| + k);
    }
  }

  // ------------------------------------------------------------------
  // As it runs, from the document and from the groups.

  lemma OneMoreRow(make: Maker, n: nat, k: nat, above: seq<Row>)
    ensures [HEADER] + (above + GroupRows(make, n, k + 1, |above|))
         == ([HEADER] + (above + GroupRows(make, n, k, |above|))) + [make(n, k, |above| + k)]
  {
  }

  /** The cells of one row. */
  method MakeRow(d: Document, n: nat, k: nat, reportTotalWritten: bool, ghost make: Maker, ghost before: nat)
    returns (row: Row)
    requires Makes(make, d) && n < |d.groups| && k < |d.groups[n].files| && reportTotalWritten == (before > 0)
    ensures row == make(n, k, before)
  {
    var group := d.groups[n];
    var groupEstimate := if k == 0 then FormatInt(Reclaimable(group.size, |group.files|)) else "";
    var reportEstimate := if !reportTotalWritten then FormatInt(d.reclaimableBytes) else "";
    row := CsvRow(d.generatedAt, d.folder, n, group.size, group.hash, group.files[k], groupEstimate, reportEstimate);
    assert make(n, k, before) == RowAt(d, n, k, before);
  }

  /** The rows of group n up to its k-th, after the header and those above, for all k. */
  type Growth = nat -> seq<Row>

  /** `at` gives the rows before each row of group n. */
  ghost predicate GrowsAs(at: Growth, make: Maker, n: nat, above: seq<Row>) {
    forall k {:trigger GroupRows(make, n, k, |above|)} :: at(k) == [HEADER] + (above + GroupRows(make, n, k, |above|))
  }

  lemma NextInGroup(at: Growth, make: Maker, n: nat, k: nat, above: seq<Row>)
    requires GrowsAs(at, make, n, above)
    ensures at(k + 1) == at(k) + [make(n, k, |above| + k)]
  {
    OneMoreRow(make, n, k, above);
  }

  lemma StartOfGroup(at: Growth, make: Maker, n: nat, above: seq<Row>)
    requires GrowsAs(at, make, n, above)
    ensures at(0) == [HEADER] + above
  {
    assert above + GroupRows(make, n, 0, |above|) == above;
  }

  function GroupGrowth(make: Maker, n: nat, above: seq<Row>): Growth {
    (k: nat) => [HEADER] + (above + GroupRows(make, n, k, |above|))
  }

  lemma GrowthGrows(make: Maker, n: nat, above: seq<Row>)
    ensures GrowsAs(GroupGrowth(make, n, above), make, n, above)
  {
  }

  /** The text of one group appended. */
  method MarshalGroup(d: Document, n: nat, before: string, written: bool, ghost make: Maker, ghost above: seq<Row>,
                      ghost at: Growth)
    returns (text: string)
    requires Makes(make, d) && n < |d.groups| && GrowsAs(at, make, n, above)
    requires before == TextOf(at(0)) && written == (|above| > 0)
    ensures text == TextOf(at(|d.groups[n].files|))
  {
    text := before;
    var reportTotalWritten := written;
    for k := 0 to |d.groups[n].files|
      invariant text == TextOf(at(k)) && reportTotalWritten == (|above| + k > 0)
    {
      var row := MakeRow(d, n, k, reportTotalWritten, make, |above| + k);
      NextInGroup(at, make, n, k, above);
      OneMoreLine(at(k), row);
      text := text + LineText(row);
      reportTotalWritten := true;
    }
  }

  /** `sofar` gives the rows of the first groups, for every number of them. */
  ghost predicate RowsSoFar(sofar: Growth, make: Maker, counts: seq<nat>) {
    forall n: nat {:trigger DataRows(make, counts, n)} :: n <= |counts| ==>
      sofar(n) == [HEADER] + DataRows(make, counts, n)
  }

  function TableGrowth(make: Maker, counts: seq<nat>): Growth {
    (n: nat) => if n <= |counts| then [HEADER] + DataRows(make, counts, n) else []
  }

  lemma TableGrows(make: Maker, counts: seq<nat>)
    ensures RowsSoFar(TableGrowth(make, counts), make, counts)
    ensures TableGrowth(make, counts)(0) == [HEADER] && TableGrowth(make, counts)(|counts|) == AllRows(make, counts)
  {
    assert [HEADER] + [] == [HEADER];
  }

  /** The rows of group n lead from the first n groups to the first n + 1. */
  lemma GroupLeadsOn(sofar: Growth, make: Maker, counts: seq<nat>, n: nat) returns (above: seq<Row>, at: Growth)
    requires RowsSoFar(sofar, make, counts) && n < |counts|
    ensures GrowsAs(at, make, n, above) && at(0) == sofar(n) && at(counts[n]) == sofar(n + 1)
    ensures |sofar(n)| == 1 + |above| && |sofar(n + 1)| == 1 + |above| + counts[n]
    ensures forall k: nat :: k <= counts[n] ==> IsBeginning(at(k), AllRows(make, counts))
  {
    above := DataRows(make, counts, n);
    at := GroupGrowth(make, n, above);
    GrowthGrows(make, n, above);
    StartOfGroup(at, make, n, above);
    OneMoreGroupOfRows(make, counts, n);
    assert DataRows(make, counts, n + 1) == above + GroupRows(make, n, counts[n], |above|);
    forall k: nat | k <= counts[n] ensures IsBeginning(at(k), AllRows(make, counts)) {
      StoppedInside(make, counts, n, k);
    }
  }

  /** The text of a document, into a buffer that never fails. */
  method MarshalCsv(d: Document, ghost make: Maker) returns (text: string)
    requires Makes(make, d)
    ensures text == TextOf(DocumentRows(make, d))
  {
    ghost var counts := Counts(d.groups);
    TableGrows(make, counts);
    text := MarshalGroups(d, make, counts, TableGrowth(make, counts));
  }

  method MarshalNextGroup(d: Document, n: nat, before: string, written: bool, ghost make: Maker, ghost counts: seq<nat>,
                          ghost sofar: Growth)
    returns (text: string, reportTotalWritten: bool)
    requires Makes(make, d) && n < |d.groups| && counts == Counts(d.groups) && RowsSoFar(sofar, make, counts)
    requires before == TextOf(sofar(n)) && written == (|sofar(n)| > 1)
    ensures text == TextOf(sofar(n + 1)) && reportTotalWritten == (|sofar(n + 1)| > 1)
  {
    CountAt(d.groups, n);
    ghost var above, at := GroupLeadsOn(sofar, make, counts, n);
    text := MarshalGroup(d, n, before, written, make, above, at);
    reportTotalWritten := written || |d.groups[n].files| > 0;
  }

  lemma HeaderText()
    ensures TextOf([HEADER]) == LineText(HEADER)
  {
    OneMoreLine([], HEADER);
    assert [] + [HEADER] == [HEADER] && TextOf([]) == "";
    assert "" + LineText(HEADER) == LineText(HEADER);
  }

  method MarshalGroups(d: Document, ghost make: Maker, ghost counts: seq<nat>, ghost sofar: Growth)
    returns (text: string)
    requires Makes(make, d) && counts == Counts(d.groups) && RowsSoFar(sofar, make, counts) && sofar(0) == [HEADER]
    ensures text == TextOf(sofar(|counts|))
  {
    text := LineText(HEADER);
    HeaderText();
    var reportTotalWritten := false;
    for n := 0 to |d.groups|
      invariant text == TextOf(sofar(n)) && reportTotalWritten == (|sofar(n)| > 1)
    {
      text, reportTotalWritten := MarshalNextGroup(d, n, text, reportTotalWritten, make, counts, sofar);
    }
  }

  lemma NoRowEmpty(make: Maker, d: Document)
    requires Makes(make, d)
    ensures forall i :: 0 <= i < |DocumentRows(make, d)| ==> DocumentRows(make, d)[i] != []
  {
    var data := DataRows(make, Counts(d.groups), |d.groups|);
    ColumnSumsEstimates(make, d, |d.groups|);
    forall i | 0 <= i < |DocumentRows(make, d)| ensures DocumentRows(make, d)[i] != [] {
      if i > 0 { assert DocumentRows(make, d)[i] == data[i - 1] && IsWide(data[i - 1]); }
    }
  }

  /** A reader of CSV gets the rows of the document back, every line in a cell ended
      by CR LF. */
  lemma TextReadsBack(make: Maker, d: Document)
    requires Makes(make, d)
    ensures ReadRows(TextOf(DocumentRows(make, d))) == Some(NormalRows(DocumentRows(make, d)))
  {
    NoRowEmpty(make, d);
    RowsReadBack(DocumentRows(make, d));
  }

  ghost predicate IsBeginning(rows: seq<Row>, all: seq<Row>) { |rows| <= |all| && all[..|rows|] == rows }

  lemma {:induction false} RowsGrow(make: Maker, counts: seq<nat>, m: nat, n: nat)
    requires m <= n <= |counts|
    ensures IsBeginning(DataRows(make, counts, m), DataRows(make, counts, n))
    decreases n
  {
    if m < n { RowsGrow(make, counts, m, n - 1); }
  }

  lemma {:induction false} GroupRowsGrow(make: Maker, n: nat, j: nat, k: nat, before: nat)
    requires j <= k
    ensures IsBeginning(GroupRows(make, n, j, before), GroupRows(make, n, k, before))
    decreases k
  {
    if j < k { GroupRowsGrow(make, n, j, k - 1, before); }
  }

  lemma BeginningJoins(head: seq<Row>, above: seq<Row>, part: seq<Row>, whole: seq<Row>, all: seq<Row>)
    requires IsBeginning(part, whole) && IsBeginning(above + whole, all)
    ensures IsBeginning(head + (above + part), head + all)
  {
  }

  /** What an export stopped inside a group has written is a beginning of all rows. */
  lemma StoppedInside(make: Maker, counts: seq<nat>, n: nat, k: nat)
    requires n < |counts| && k <= counts[n]
    ensures var above := DataRows(make, counts, n);
            IsBeginning([HEADER] + (above + GroupRows(make, n, k, |above|)), AllRows(make, counts))
  {
    var above := DataRows(make, counts, n);
    GroupRowsGrow(make, n, k, counts[n], |above|);
    RowsGrow(make, counts, n + 1, |counts|);
    BeginningJoins([HEADER], above, GroupRows(make, n, k, |above|), GroupRows(make, n, counts[n], |above|),
                   DataRows(make, counts, |counts|));
  }

  /** The cells of one row, from the scan record. */
  method WriteRow(stamp: Stamp, folder: string, groups: seq<DuplicateGroup>, generatedAt: int, total: int, n: nat,
                  k: nat,
                  reportTotalWritten: bool, ghost d: Document, ghost make: Maker, ghost before: nat) returns (row: Row)
    requires Makes(make, d) && Matches(d, stamp, folder, groups, generatedAt, total)
    requires n < |groups| && k < |groups[n].files| && reportTotalWritten == (before > 0)
    ensures row == make(n, k, before)
  {
    var group := groups[n];
    assert d.groups[n] == GroupOf(stamp, group) && d.groups[n].files[k] == FileOf(stamp, group.files[k]);
    var groupEstimate := if k == 0 then FormatInt(Reclaimable(group.size, |group.files|)) else "";
    var reportEstimate := if !reportTotalWritten then FormatInt(total) else "";
    row := CsvRow(stamp(generatedAt), folder, n, group.size, group.hash, FileOf(stamp, group.files[k]), groupEstimate,
                  reportEstimate);
    assert make(n, k, before) == RowAt(d, n, k, before);
  }

  function FileCounts(groups: seq<DuplicateGroup>): (counts: seq<nat>)
    ensures |counts| == |groups|
  {
    if groups == [] then [] else FileCounts(groups[..|groups| - 1]) + [|groups[|groups| - 1].files|]
  }

  lemma {:induction false} FileCountAt(groups: seq<DuplicateGroup>, i: nat)
    requires i < |groups|
    ensures FileCounts(groups)[i] == |groups[i].files|
  {
    if i < |groups| - 1 { FileCountAt(groups[..|groups| - 1], i); }
  }

  /** The document has as many files in each group. */
  lemma {:induction false} SameCounts(stamp: Stamp, groups: seq<DuplicateGroup>)
    ensures FileCounts(groups) == Counts(GroupsOf(stamp, groups))
  {
    var exported := GroupsOf(stamp, groups);
    forall i | 0 <= i < |groups| ensures FileCounts(groups)[i] == Counts(exported)[i] {
      FileCountAt(groups, i);
      CountAt(exported, i);
      assert exported[i] == GroupOf(stamp, groups[i]);
    }
  }

  /** One row handed to the writer, after a look at the context. */
  method WriteNextRow(out: RowWriter, stamp: Stamp, folder: string, groups: seq<DuplicateGroup>, generatedAt: int,
                      total: int, n: nat, k: nat, written: bool, ghost d: Document, ghost make: Maker,
                      ghost above: seq<Row>, ghost at: Growth)
    returns (ok: bool)
    requires Makes(make, d) && Matches(d, stamp, folder, groups, generatedAt, total) && GrowsAs(at, make, n, above)
    requires n < |groups| && k < |groups[n].files| && written == (|above| + k > 0)
    requires out.Valid() && !out.buffered.failed && out.rows == at(k)
    modifies out, out.buffered, out.buffered.writer
    ensures ok ==> out.Valid() && !out.buffered.failed && out.rows == at(k + 1)
    ensures !ok ==> out.Partial() && (out.rows == at(k) || out.rows == at(k + 1))
    ensures out.buffered.writer.Counted(ok) && (out.buffered.writer.Faultless() ==> ok)
  {
    var stopped := out.Stopped();
    if stopped { return false; }
    var row := WriteRow(stamp, folder, groups, generatedAt, total, n, k, written, d, make, |above| + k);
    NextInGroup(at, make, n, k, above);
    ok := out.Write(row);
    if !ok { out.ValidIsPartial(); }
  }

  /** The rows of one group handed to the writer. */
  method WriteGroupRows(out: RowWriter, stamp: Stamp, folder: string, groups: seq<DuplicateGroup>, generatedAt: int,
                        total: int, n: nat, written: bool, ghost d: Document, ghost make: Maker, ghost above: seq<Row>,
                        ghost at: Growth)
    returns (ok: bool, ghost reached: nat)
    requires Makes(make, d) && Matches(d, stamp, folder, groups, generatedAt, total) && GrowsAs(at, make, n, above)
    requires n < |groups| && out.Valid() && !out.buffered.failed && out.rows == at(0) && written == (|above| > 0)
    modifies out, out.buffered, out.buffered.writer
    ensures reached <= |groups[n].files| && out.rows == at(reached)
    ensures if ok then out.Valid() && !out.buffered.failed && reached == |groups[n].files| else out.Partial()
    ensures out.buffered.writer.Counted(ok) && (out.buffered.writer.Faultless() ==> ok)
  {
    var reportTotalWritten := written;
    var stopped := out.Stopped();
    if stopped { return false, 0; }
    for k := 0 to |groups[n].files|
      invariant out.Valid() && !out.buffered.failed && out.buffered.writer.Counted(true)
      invariant out.rows == at(k) && reportTotalWritten == (|above| + k > 0)
    {
      ok := WriteNextRow(out, stamp, folder, groups, generatedAt, total, n, k, reportTotalWritten, d, make, above, at);
      if !ok { return false, if out.rows == at(k) then k else k + 1; }
      reportTotalWritten := true;
    }
    ok, reached := true, |groups[n].files|;
  }

  /** The rows of the next group. */
  method WriteNextGroup(out: RowWriter, stamp: Stamp, folder: string, groups: seq<DuplicateGroup>, generatedAt: int,
                        total: int, n: nat, written: bool, ghost d: Document, ghost make: Maker, ghost counts: seq<nat>,
                        ghost sofar: Growth)
    returns (reportTotalWritten: bool, ok: bool)
    requires Makes(make, d) && Matches(d, stamp, folder, groups, generatedAt, total)
    requires counts == FileCounts(groups) && RowsSoFar(sofar, make, counts)
    requires n < |groups| && out.Valid() && !out.buffered.failed && out.rows == sofar(n) && written == (|sofar(n)| > 1)
    modifies out, out.buffered, out.buffered.writer
    ensures ok ==> out.Valid() && !out.buffered.failed && out.rows == sofar(n + 1)
                   && reportTotalWritten == (|sofar(n + 1)| > 1)
    ensures !ok ==> out.Partial() && IsBeginning(out.rows, AllRows(make, counts))
    ensures out.buffered.writer.Counted(ok) && (out.buffered.writer.Faultless() ==> ok)
  {
    FileCountAt(groups, n);
    ghost var above, at := GroupLeadsOn(sofar, make, counts, n);
    ghost var reached;
    ok, reached := WriteGroupRows(out, stamp, folder, groups, generatedAt, total, n, written, d, make, above, at);
    reportTotalWritten := written || |groups[n].files| > 0;
  }

  method WriteAllRows(out: RowWriter, stamp: Stamp, folder: string, groups: seq<DuplicateGroup>, generatedAt: int,
                      total: int, ghost d: Document, ghost make: Maker, ghost counts: seq<nat>, ghost sofar: Growth)
    returns (ok: bool)
    requires Makes(make, d) && Matches(d, stamp, folder, groups, generatedAt, total)
    requires counts == FileCounts(groups) && RowsSoFar(sofar, make, counts) && sofar(0) == [HEADER]
    requires out.Valid() && !out.buffered.failed && out.rows == [HEADER]
    modifies out, out.buffered, out.buffered.writer
    ensures ok ==> out.Valid() && !out.buffered.failed && out.rows == sofar(|groups|)
    ensures !ok ==> out.Partial() && IsBeginning(out.rows, AllRows(make, counts))
    ensures out.buffered.writer.Counted(ok) && (out.buffered.writer.Faultless() ==> ok)
  {
    var reportTotalWritten := false;
    for n := 0 to |groups|
      invariant out.Valid() && !out.buffered.failed && out.buffered.writer.Counted(true)
      invariant out.rows == sofar(n) && reportTotalWritten == (|sofar(n)| > 1)
    {
      reportTotalWritten, ok := WriteNextGroup(out, stamp, folder, groups, generatedAt, total, n, reportTotalWritten, d,
                                               make, counts, sofar);
      if !ok { return; }
    }
    ok := true;
  }

  /** All that follows the header. */
  method WriteBody(out: RowWriter, stamp: Stamp, folder: string, groups: seq<DuplicateGroup>, generatedAt: int,
                   total: int, ghost d: Document, ghost make: Maker, ghost counts: seq<nat>, ghost sofar: Growth)
    returns (ok: bool)
    requires Makes(make, d) && Matches(d, stamp, folder, groups, generatedAt, total)
    requires counts == FileCounts(groups) && RowsSoFar(sofar, make, counts) && sofar(0) == [HEADER]
    requires sofar(|counts|) == AllRows(make, counts)
    requires out.Valid() && !out.buffered.failed && out.rows == [HEADER]
    modifies out, out.buffered, out.buffered.writer
    ensures Wrote(ok, out.buffered.start, out.buffered.writer.contents, TextOf(AllRows(make, counts)))
    ensures out.buffered.writer.Counted(ok) && (out.buffered.writer.Faultless() ==> ok)
  {
    ok := WriteAllRows(out, stamp, folder, groups, generatedAt, total, d, make, counts, sofar);
    if !ok {
      out.HoldsBeginning(AllRows(make, counts));
      return;
    }
    var stopped := out.Stopped();
    if stopped {
      out.HoldsBeginning(AllRows(make, counts));
      return false;
    }
    ok := out.Finish();
  }

  lemma HeaderFirst(make: Maker, counts: seq<nat>)
    ensures IsBeginning([HEADER], AllRows(make, counts))
  {
  }

  /** Streaming straight from the scan records writes the text that `MarshalCsv`
      makes of the document, and succeeds exactly when no fault is seen; otherwise
      the destination gets a beginning of that text. */
  method WriteCsv(w: ContextWriter, stamp: Stamp, folder: string, groups: seq<DuplicateGroup>, generatedAt: int,
                  summary: Summary, ghost make: Maker)
    returns (ok: bool)
    requires summary == Summary(|groups|, FileTotal(groups), ReclaimableTotal(groups))
    requires Makes(make, DocumentOf(stamp, folder, groups, generatedAt))
    modifies w
    ensures Wrote(ok, old(w.contents), w.contents,
                  TextOf(DocumentRows(make, DocumentOf(stamp, folder, groups, generatedAt))))
    ensures w.Counted(ok) && (w.Faultless() ==> ok)
  {
    ghost var d, counts := DocumentOf(stamp, folder, groups, generatedAt), FileCounts(groups);
    DocumentMatches(stamp, folder, groups, generatedAt);
    SameCounts(stamp, groups);
    TableGrows(make, counts);
    var out := new RowWriter(w);
    assert [] + [HEADER] == [HEADER];
    ok := out.Write(HEADER);
    if !ok {
      HeaderFirst(make, counts);
      out.ValidIsPartial();
      out.HoldsBeginning(AllRows(make, counts));
      return;
    }
    ok := WriteBody(out, stamp, folder, groups, generatedAt, summary.reclaimableBytes, d, make, counts,
                    TableGrowth(make, counts));
  }
}
