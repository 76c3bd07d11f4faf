/**
 What remains of the duplicate rows once files are gone: only groups that still
 have two rows, renumbered without gaps.
 */
module SurvivingRows {
  import opened Records
  import opened RecyclePlan

  function Kept(rows: seq<Row>, deleted: set<Path>): seq<Row> {
    if rows == [] then []
    else
      var n := |rows| - 1;
      Kept(rows[..n], deleted) + if rows[n].file.path in deleted then [] else [rows[n]]
  }

  function CountKey(rows: seq<Row>, key: string): nat {
    if rows == [] then 0 else CountKey(rows[..|rows| - 1], key) + if rows[|rows| - 1].key == key then 1 else 0
  }

  /** The rows whose key occurs at least twice in `all`. */
  function Paired(rows: seq<Row>, all: seq<Row>): seq<Row> {
    if rows == [] then []
    else
      var n := |rows| - 1;
      Paired(rows[..n], all) + if CountKey(all, rows[n].key) < 2 then [] else [rows[n]]
  }

  function Survivors(rows: seq<Row>, deleted: set<Path>): seq<Row> {
    var kept := Kept(rows, deleted);
    Paired(kept, kept)
  }

  /** The keys in order of first appearance. */
  function KeysIn(rows: seq<Row>): seq<string> {
    if rows == [] then []
    else
      var before, key := KeysIn(rows[..|rows| - 1]), rows[|rows| - 1].key;
      if key in before then before else before + [key]
  }

  function IndexOf(keys: seq<string>, key: string): (i: nat)
    requires key in keys
    ensures i < |keys| && keys[i] == key && forall j :: 0 <= j < i ==> keys[j] != key
  {
    if keys[0] == key then 0 else 1 + IndexOf(keys[1..], key)
  }

  lemma {:induction false} KeysInExactly(rows: seq<Row>, key: string)
    ensures key in KeysIn(rows) <==> exists row :: row in rows && row.key == key
  {
    if rows != [] {
      var n := |rows| - 1;
      KeysInExactly(rows[..n], key);
      assert rows == rows[..n] + [rows[n]];
    }
  }

  lemma {:induction false} KeysInDistinct(rows: seq<Row>)
    ensures forall i, j :: 0 <= i < j < |KeysIn(rows)| ==> KeysIn(rows)[i] != KeysIn(rows)[j]
  {
    if rows != [] { KeysInDistinct(rows[..|rows| - 1]); }
  }

  /** Row n of the renumbered table. */
  function Renumber(rows: seq<Row>, n: nat): Row
    requires n < |rows|
  {
    KeysInExactly(rows, rows[n].key);
    rows[n].(group := IndexOf(KeysIn(rows), rows[n].key) + 1, number := n + 1, selected := false)
  }

  ghost predicate IsRenumbered(rows: seq<Row>, result: seq<Row>) {
    |result| == |rows| && forall n :: 0 <= n < |rows| ==> result[n] == Renumber(rows, n)
  }

  // ------------------------------------------------------------------
  // What that means.

  lemma {:induction false} KeptExactly(rows: seq<Row>, deleted: set<Path>, row: Row)
    ensures row in Kept(rows, deleted) <==> row in rows && row.file.path !in deleted
  {
    if rows != [] {
      var n := |rows| - 1;
      KeptExactly(rows[..n], deleted, row);
      assert rows == rows[..n] + [rows[n]];
    }
  }

  lemma {:induction false} PairedExactly(rows: seq<Row>, all: seq<Row>, row: Row)
    ensures row in Paired(rows, all) <==> row in rows && CountKey(all, row.key) >= 2
  {
    if rows != [] {
      var n := |rows| - 1;
      PairedExactly(rows[..n], all, row);
      assert rows == rows[..n] + [rows[n]];
    }
  }

  lemma CountAppend(rows: seq<Row>, row: Row, key: string)
    ensures CountKey(rows + [row], key) == CountKey(rows, key) + if row.key == key then 1 else 0
  {
    assert (rows + [row])[..|rows|] == rows;
  }

  lemma {:induction false} PairedCounts(rows: seq<Row>, all: seq<Row>, key: string)
    ensures CountKey(Paired(rows, all), key) == if CountKey(all, key) < 2 then 0 else CountKey(rows, key)
  {
    if rows != [] {
      var n := |rows| - 1;
      PairedCounts(rows[..n], all, key);
      CountAppend(Paired(rows[..n], all), rows[n], key);
      assert Paired(rows[..n], all) + [] == Paired(rows[..n], all);
    }
  }

  /** A row survives exactly when its file is not gone and at least two rows of
      its group are not; so no group of one is left. */
  lemma SurvivesExactly(rows: seq<Row>, deleted: set<Path>, row: Row)
    ensures row in Survivors(rows, deleted)
       <==> row in rows && row.file.path !in deleted && CountKey(Kept(rows, deleted), row.key) >= 2
    ensures row in Survivors(rows, deleted) ==> CountKey(Survivors(rows, deleted), row.key) >= 2
  {
    var kept := Kept(rows, deleted);
    KeptExactly(rows, deleted, row);
    PairedExactly(kept, kept, row);
    PairedCounts(kept, kept, row.key);
  }

  /** Rows are numbered from one in order; two rows have the same group number
      exactly when they have the same key. */
  lemma NumberedWithoutGaps(rows: seq<Row>, result: seq<Row>, i: nat, j: nat)
    requires IsRenumbered(rows, result) && i < |rows| && j < |rows|
    ensures result[i].number == i + 1 && !result[i].selected && result[i].file == rows[i].file
            && result[i].key == rows[i].key && result[i].hash == rows[i].hash
            && result[i].duplicate == rows[i].duplicate
    ensures result[i].group == result[j].group <==> rows[i].key == rows[j].key
    ensures 1 <= result[i].group <= |KeysIn(rows)|
  {
    assert result[i] == Renumber(rows, i) && result[j] == Renumber(rows, j);
    KeysInDistinct(rows);
  }

  lemma EveryNumberUsed(rows: seq<Row>, result: seq<Row>, g: nat) returns (k: nat)
    requires IsRenumbered(rows, result) && 1 <= g <= |KeysIn(rows)|
    ensures k < |rows| && result[k].group == g
  {
    var key := KeysIn(rows)[g - 1];
    KeysInExactly(rows, key);
    var row :| row in rows && row.key == key;
    k :| 0 <= k < |rows| && rows[k] == row;
    assert result[k] == Renumber(rows, k);
    KeysInDistinct(rows);
  }

  // ------------------------------------------------------------------
  // As it runs.

  function CountIn(counts: map<string, nat>, key: string): nat { if key in counts then counts[key] else 0 }

  ghost predicate Counted(rows: seq<Row>, counts: map<string, nat>) {
    forall key :: CountKey(rows, key) == CountIn(counts, key)
  }

  lemma CountedStep(rows: seq<Row>, row: Row, counts: map<string, nat>)
    requires Counted(rows, counts)
    ensures Counted(rows + [row], counts[row.key := CountIn(counts, row.key) + 1])
  {
    forall key ensures CountKey(rows + [row], key) == CountIn(counts[row.key := CountIn(counts, row.key) + 1], key) {
      CountAppend(rows, row, key);
    }
  }

  method KeepRows(rows: seq<Row>, deleted: set<Path>) returns (filtered: seq<Row>, counts: map<string, nat>)
    ensures filtered == Kept(rows, deleted)
    ensures Counted(filtered, counts)
  {
    filtered, counts := [], map[];
    for i := 0 to |rows|
      invariant filtered == Kept(rows[..i], deleted) && Counted(filtered, counts)
    {
      var row := rows[i];
      assert rows[..i + 1][..i] == rows[..i];
      if row.file.path in deleted { continue; }
      CountedStep(filtered, row, counts);
      filtered := filtered + [row];
      counts := counts[row.key := CountIn(counts, row.key) + 1];
    }
    assert rows[..|rows|] == rows;
  }

  /** The numbers given so far. */
  ghost predicate Numbered(keys: seq<string>, numbers: map<string, nat>, nextGroup: nat) {
    nextGroup == |keys| + 1
    && (forall key :: key in numbers <==> key in keys)
    && (forall key :: key in numbers ==> numbers[key] == IndexOf(keys, key) + 1)
  }

  lemma IndexStays(keys: seq<string>, last: string, key: string)
    requires key in keys
    ensures IndexOf(keys + [last], key) == IndexOf(keys, key)
  {
    var longer := keys + [last];
    assert longer[IndexOf(keys, key)] == key;
    assert forall j :: 0 <= j < |keys| ==> longer[j] == keys[j];
  }

  lemma LastIndex(keys: seq<string>, last: string)
    requires last !in keys
    ensures IndexOf(keys + [last], last) == |keys|
  {
    var longer := keys + [last];
    assert longer[|keys|] == last;
    assert forall j :: 0 <= j < |keys| ==> longer[j] == keys[j];
  }

  lemma KeysGrow(done: seq<Row>, row: Row)
    ensures KeysIn(done + [row]) == if row.key in KeysIn(done) then KeysIn(done) else KeysIn(done) + [row.key]
  {
    assert (done + [row])[..|done|] == done;
  }

  lemma RenumberStays(done: seq<Row>, row: Row, n: nat)
    requires n < |done|
    ensures Renumber(done + [row], n) == Renumber(done, n)
  {
    KeysGrow(done, row);
    KeysInExactly(done, done[n].key);
    IndexStays(KeysIn(done), row.key, done[n].key);
  }

  lemma RenumberLast(done: seq<Row>, row: Row)
    ensures var keys := KeysIn(done);
            Renumber(done + [row], |done|)
            == row.(group := (if row.key in keys then IndexOf(keys, row.key)
                              else |keys|) + 1, number := |done| + 1, selected := false)
  {
    KeysGrow(done, row);
    if row.key !in KeysIn(done) { LastIndex(KeysIn(done), row.key); }
  }

  lemma NewNumber(keys: seq<string>, key: string, numbers: map<string, nat>, nextGroup: nat)
    requires Numbered(keys, numbers, nextGroup) && key !in keys
    ensures Numbered(keys + [key], numbers[key := nextGroup], nextGroup + 1)
  {
    LastIndex(keys, key);
    forall k | k in keys ensures IndexOf(keys + [key], k) == IndexOf(keys, k) { IndexStays(keys, key, k); }
  }

  lemma RenumberedStep(done: seq<Row>, row: Row, result: seq<Row>, group: nat)
    requires IsRenumbered(done, result)
    requires group == (if row.key in KeysIn(done) then IndexOf(KeysIn(done), row.key) else |KeysIn(done)|) + 1
    ensures IsRenumbered(done + [row], result + [row.(group := group, number := |result| + 1, selected := false)])
  {
    RenumberLast(done, row);
    forall n | 0 <= n < |done| ensures Renumber(done + [row], n) == result[n] { RenumberStays(done, row, n); }
  }

  method RenumberRows(filtered: seq<Row>, counts: map<string, nat>) returns (result: seq<Row>)
    requires Counted(filtered, counts)
    ensures IsRenumbered(Paired(filtered, filtered), result)
  {
    result := [];
    var numbers: map<string, nat> := map[];
    var nextGroup := 1;
    for i := 0 to |filtered|
      invariant IsRenumbered(Paired(filtered[..i], filtered), result)
      invariant Numbered(KeysIn(Paired(filtered[..i], filtered)), numbers, nextGroup)
    {
      var row := filtered[i];
      assert filtered[..i + 1][..i] == filtered[..i];
      if CountIn(counts, row.key) < 2 {
        assert Paired(filtered[..i], filtered) + [] == Paired(filtered[..i], filtered);
        continue;
      }
      ghost var done := Paired(filtered[..i], filtered);
      KeysGrow(done, row);
      var group := nextGroup;
      if row.key in numbers {
        group := numbers[row.key];
      } else {
        NewNumber(KeysIn(done), row.key, numbers, nextGroup);
        numbers := numbers[row.key := group];
        nextGroup := nextGroup + 1;
      }
      RenumberedStep(done, row, result, group);
      result := result + [row.(group := group, number := |result| + 1, selected := false)];
    }
    assert filtered[..|filtered|] == filtered;
  }
}
