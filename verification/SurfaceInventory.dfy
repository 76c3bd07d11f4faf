/**
 The inventory that parallel directory readers build: files are admitted
 through a shared budget counter reserved by compare-and-swap, appended under a
 mutex with their category statistics, and added to an atomic byte total.
 Counters are 64-bit and wrap.
 */
module SurfaceInventory {
  import opened Int64
  import opened Records
  import opened Sums

  /** The shared budget counter as one thread sees it: before each of its atomic
      operations the other threads may have reserved any number of places. */
  class Counter {
    var value: nat

    constructor ()
      ensures value == 0
    {
      value := 0;
    }

    method OthersReserve(count: nat, limit: nat)
      requires value <= limit
      modifies this
      ensures old(value) <= value <= limit
    {
      value := if value + count <= limit then value + count else limit;
    }

    /** Load, compare, swap, retry. A retry means others took places, so the loop
        ends; the ticket is the place this thread took. */
    method ReserveCardinality(limit: nat, others: nat -> nat) returns (ok: bool, current: nat)
      requires value <= limit
      modifies this
      ensures old(value) <= value <= limit
      ensures ok ==> old(value) < current == value
      ensures !ok ==> current == value == limit
    {
      var t := 0;
      while true
        invariant old(value) <= value <= limit
        decreases limit - value
      {
        OthersReserve(others(2 * t), limit);
        current := value;
        if current >= limit { return false, current; }
        OthersReserve(others(2 * t + 1), limit);
        if value == current {
          value := current + 1;
          return true, current + 1;
        }
        t := t + 1;
      }
    }
  }

  datatype Stats = Stats(files: int, bytes: int)

  /** Where one reader is inside `recordFile`. */
  datatype Worker =
    | Idle
    | Loading(file: FileRecord)
    | Swapping(file: FileRecord, seen: int)
    | Appending(file: FileRecord)
    | Adding(file: FileRecord)
    | Refused

  datatype Inventory = Inventory(
    limit: nat,
    reserved: int,                // the budget counter
    tickets: seq<int>,            // values handed out by successful reservations
    records: seq<FileRecord>,
    stats: map<string, Stats>,
    totalBytes: int,
    workers: seq<Worker>)

  datatype Action =
    | Begin(i: nat, file: FileRecord)
    | Load(i: nat)
    | Swap(i: nat)
    | Append(i: nat)
    | AddBytes(i: nat)

  function Init(limit: nat, n: nat): Inventory {
    Inventory(limit, 0, [], [], map[], 0, seq(n, _ => Idle))
  }

  function StatsOf(s: Inventory, category: string): Stats {
    if category in s.stats then s.stats[category] else Stats(0, 0)
  }

  predicate Enabled(s: Inventory, a: Action) {
    a.i < |s.workers| && match a
    case Begin(i, _) => s.workers[i].Idle?
    case Load(i) => s.workers[i].Loading?
    case Swap(i) => s.workers[i].Swapping?
    case Append(i) => s.workers[i].Appending?
    case AddBytes(i) => s.workers[i].Adding?
  }

  function Apply(s: Inventory, a: Action): Inventory
    requires Enabled(s, a)
  {
    var w := s.workers[a.i];
    match a
    case Begin(i, file) => s.(workers := s.workers[i := Loading(file)])
    case Load(i) =>
      if s.reserved >= s.limit then s.(workers := s.workers[i := Refused])
      else s.(workers := s.workers[i := Swapping(w.file, s.reserved)])
    case Swap(i) =>
      if s.reserved == w.seen then
        s.(reserved := Wrap(s.reserved + 1), tickets := s.tickets + [Wrap(w.seen + 1)],
           workers := s.workers[i := Appending(w.file)])
      else s.(workers := s.workers[i := Loading(w.file)])
    case Append(i) =>
      var before := StatsOf(s, w.file.category);
      s.(records := s.records + [w.file],
         stats := s.stats[w.file.category := Stats(Wrap(before.files + 1), Wrap(before.bytes + w.file.size))],
         workers := s.workers[i := Adding(w.file)])
    case AddBytes(i) => s.(totalBytes := Wrap(s.totalBytes + w.file.size), workers := s.workers[i := Idle])
  }

  // ------------------------------------------------------------------
  // What every interleaving keeps.

  function SizeOf(f: FileRecord): nat { f.size }
  function InCategory(c: string): FileRecord -> nat { (f: FileRecord) => if f.category == c then 1 else 0 }
  function SizeInCategory(c: string): FileRecord -> nat { (f: FileRecord) => if f.category == c then f.size else 0 }
  function Admitted(w: Worker): nat { if w.Appending? then 1 else 0 }
  function NotYetAdded(w: Worker): nat { if w.Adding? then w.file.size else 0 }

  ghost predicate Inv(s: Inventory) {
    && s.limit < TWO63
    // the counter never passes its limit and the tickets are exactly 1..n
    && 0 <= s.reserved <= s.limit
    && |s.tickets| == s.reserved && (forall k :: 0 <= k < |s.tickets| ==> s.tickets[k] == k + 1)
    && (forall i :: 0 <= i < |s.workers| && s.workers[i].Swapping? ==> s.workers[i].seen < s.limit)
    // each ticket is a record or a reader about to append one
    && s.reserved == |s.records| + Sum(s.workers, Admitted)
    // the total lags behind the records by what readers have yet to add
    && s.totalBytes == Wrap(Sum(s.records, SizeOf) - Sum(s.workers, NotYetAdded))
    && (forall c :: StatsOf(s, c) == Stats(Sum(s.records, InCategory(c)), Wrap(Sum(s.records, SizeInCategory(c)))))
    && (forall f :: f in s.records ==> f.category in s.stats)
  }

  lemma InitInv(limit: nat, n: nat)
    requires limit < TWO63
    ensures Inv(Init(limit, n))
  {
    ZeroSum(seq(n, _ => Idle), Admitted, n);
    ZeroSum(seq(n, _ => Idle), NotYetAdded, n);
  }

  lemma LoadKeepsInv(s: Inventory, a: Action)
    requires Inv(s) && Enabled(s, a) && (a.Begin? || a.Load?)
    ensures Inv(Apply(s, a))
  {
    var w' := Apply(s, a).workers[a.i];
    SumUpdate(s.workers, a.i, w', Admitted);
    SumUpdate(s.workers, a.i, w', NotYetAdded);
    assert Apply(s, a) == s.(workers := s.workers[a.i := w']);
  }

  lemma SwapKeepsInv(s: Inventory, i: nat)
    requires Inv(s) && Enabled(s, Swap(i))
    ensures Inv(Apply(s, Swap(i)))
  {
    var w := s.workers[i];
    var w' := if s.reserved == w.seen then Appending(w.file) else Loading(w.file);
    SumUpdate(s.workers, i, w', Admitted);
    SumUpdate(s.workers, i, w', NotYetAdded);
  }

  lemma {:induction false} CountBound(records: seq<FileRecord>, c: string, n: nat)
    requires n <= |records|
    ensures SumTo(records, InCategory(c), n) <= n
  {
    if n > 0 { CountBound(records, c, n - 1); }
  }

  lemma AppendKeepsInv(s: Inventory, i: nat)
    requires Inv(s) && Enabled(s, Append(i))
    ensures Inv(Apply(s, Append(i)))
  {
    var w := s.workers[i];
    SumUpdate(s.workers, i, Adding(w.file), Admitted);
    SumUpdate(s.workers, i, Adding(w.file), NotYetAdded);
    SumAppend(s.records, w.file, SizeOf);
    forall c
      ensures var t := Apply(s, Append(i));
              StatsOf(t, c) == Stats(Sum(t.records, InCategory(c)), Wrap(Sum(t.records, SizeInCategory(c))))
    {
      SumAppend(s.records, w.file, InCategory(c));
      SumAppend(s.records, w.file, SizeInCategory(c));
      CountBound(s.records, c, |s.records|);
      WrapAdd(Sum(s.records, SizeInCategory(c)), w.file.size);
    }
  }

  lemma AddBytesKeepsInv(s: Inventory, i: nat)
    requires Inv(s) && Enabled(s, AddBytes(i))
    ensures Inv(Apply(s, AddBytes(i)))
  {
    var w := s.workers[i];
    SumUpdate(s.workers, i, Idle, Admitted);
    SumUpdate(s.workers, i, Idle, NotYetAdded);
    WrapAdd(Sum(s.records, SizeOf) - Sum(s.workers, NotYetAdded), w.file.size);
  }

  predicate Run(s: Inventory, actions: seq<Action>, t: Inventory)
    decreases |actions|
  {
    if actions == [] then s == t
    else Enabled(s, actions[0]) && Run(Apply(s, actions[0]), actions[1..], t)
  }

  lemma {:induction false} RunKeepsInv(s: Inventory, actions: seq<Action>, t: Inventory)
    requires Inv(s) && Run(s, actions, t)
    ensures Inv(t)
    decreases |actions|
  {
    if actions != [] {
      var a := actions[0];
      if a.Append? { AppendKeepsInv(s, a.i); }
      else if a.AddBytes? { AddBytesKeepsInv(s, a.i); }
      else if a.Swap? { SwapKeepsInv(s, a.i); }
      else { LoadKeepsInv(s, a); }
      RunKeepsInv(Apply(s, a), actions[1..], t);
    }
  }

  /** Under any interleaving of the reservation steps the counter stays within
      its limit and the successful tickets are exactly 1..n, each once. */
  lemma TicketsExact(limit: nat, n: nat, actions: seq<Action>, t: Inventory)
    requires limit < TWO63 && Run(Init(limit, n), actions, t)
    ensures 0 <= t.reserved <= t.limit && |t.tickets| == t.reserved
    ensures forall k :: 0 <= k < |t.tickets| ==> t.tickets[k] == k + 1
  {
    InitInv(limit, n);
    RunKeepsInv(Init(limit, n), actions, t);
  }

  /** Sums over the distinct categories in `cs`. */
  function FilesIn(s: Inventory, cs: seq<string>): int {
    if cs == [] then 0 else FilesIn(s, cs[..|cs| - 1]) + StatsOf(s, cs[|cs| - 1]).files
  }

  function BytesIn(s: Inventory, cs: seq<string>): int {
    if cs == [] then 0 else Wrap(BytesIn(s, cs[..|cs| - 1]) + StatsOf(s, cs[|cs| - 1]).bytes)
  }

  function OneOf(cs: seq<string>): FileRecord -> nat { (f: FileRecord) => if f.category in cs then 1 else 0 }
  function SizeIfOneOf(cs: seq<string>): FileRecord -> nat { (f: FileRecord) => if f.category in cs then f.size else 0 }

  lemma {:induction false} CategoriesAddUp(records: seq<FileRecord>, cs: seq<string>, c: string, n: nat)
    requires n <= |records| && c !in cs
    ensures SumTo(records, OneOf(cs + [c]), n) == SumTo(records, OneOf(cs), n) + SumTo(records, InCategory(c), n)
    ensures SumTo(records, SizeIfOneOf(cs + [c]), n)
            == SumTo(records, SizeIfOneOf(cs), n) + SumTo(records, SizeInCategory(c), n)
  {
    if n > 0 { CategoriesAddUp(records, cs, c, n - 1); }
  }

  lemma {:induction false} CategorySums(s: Inventory, cs: seq<string>)
    requires Inv(s) && forall i, j :: 0 <= i < j < |cs| ==> cs[i] != cs[j]
    ensures FilesIn(s, cs) == Sum(s.records, OneOf(cs))
    ensures BytesIn(s, cs) == Wrap(Sum(s.records, SizeIfOneOf(cs)))
  {
    if cs == [] {
      ZeroSum(s.records, OneOf(cs), |s.records|);
      ZeroSum(s.records, SizeIfOneOf(cs), |s.records|);
    } else {
      var rest, c := cs[..|cs| - 1], cs[|cs| - 1];
      assert cs == rest + [c];
      CategorySums(s, rest);
      CategoriesAddUp(s.records, rest, c, |s.records|);
      WrapAdd(Sum(s.records, SizeIfOneOf(rest)), StatsOf(s, c).bytes);
      WrapAdd(Sum(s.records, SizeInCategory(c)), Sum(s.records, SizeIfOneOf(rest)));
    }
  }

  lemma {:induction false} AllCategorized(records: seq<FileRecord>, cs: seq<string>, n: nat)
    requires n <= |records| && forall f :: f in records ==> f.category in cs
    ensures SumTo(records, OneOf(cs), n) == n
    ensures SumTo(records, SizeIfOneOf(cs), n) == SumTo(records, SizeOf, n)
  {
    if n > 0 { AllCategorized(records, cs, n - 1); }
  }

  /** A successful end: every reader is between files. */
  ghost predicate Ended(s: Inventory) { Inv(s) && forall w :: w in s.workers ==> w == Idle }

  ghost predicate CoversCategories(s: Inventory, categories: seq<string>) {
    (forall i, j :: 0 <= i < j < |categories| ==> categories[i] != categories[j])
    && forall c :: c in s.stats ==> c in categories
  }

  lemma NothingUnderWay(s: Inventory)
    requires Ended(s)
    ensures s.reserved == |s.records| && s.totalBytes == Wrap(Sum(s.records, SizeOf))
  {
    forall i | 0 <= i < |s.workers| ensures s.workers[i] == Idle {
      assert s.workers[i] in s.workers;
    }
    ZeroSum(s.workers, Admitted, |s.workers|);
    ZeroSum(s.workers, NotYetAdded, |s.workers|);
  }

  lemma CategoriesCover(s: Inventory, categories: seq<string>)
    requires Ended(s) && CoversCategories(s, categories)
    ensures FilesIn(s, categories) == |s.records| && BytesIn(s, categories) == Wrap(Sum(s.records, SizeOf))
  {
    CategorySums(s, categories);
    AllCategorized(s.records, categories, |s.records|);
  }

  /** When a surface scan ends well, every reader between files, the report adds
      up: the file total is the number of records and the sum of the category
      counts; the byte total is the sum of the record sizes and the sum of the
      category bytes, in 64-bit arithmetic. */
  lemma ReportAddsUp(limit: nat, n: nat, actions: seq<Action>, t: Inventory, categories: seq<string>)
    requires limit < TWO63 && Run(Init(limit, n), actions, t)
    requires (forall w :: w in t.workers ==> w == Idle) && CoversCategories(t, categories)
    ensures t.reserved == |t.records| == FilesIn(t, categories)
    ensures t.totalBytes == Wrap(Sum(t.records, SizeOf)) == BytesIn(t, categories)
  {
    InitInv(limit, n);
    RunKeepsInv(Init(limit, n), actions, t);
    NothingUnderWay(t);
    CategoriesCover(t, categories);
  }

  /** The sum of the category bytes as a plain number. */
  function PlainBytesIn(s: Inventory, cs: seq<string>): int {
    if cs == [] then 0 else PlainBytesIn(s, cs[..|cs| - 1]) + StatsOf(s, cs[|cs| - 1]).bytes
  }

  lemma {:induction false} PartAtMost(records: seq<FileRecord>, c: string, n: nat)
    requires n <= |records|
    ensures SumTo(records, SizeInCategory(c), n) <= SumTo(records, SizeOf, n)
  {
    if n > 0 { PartAtMost(records, c, n - 1); }
  }

  lemma {:induction false} PlainCategorySums(s: Inventory, cs: seq<string>)
    requires Inv(s) && (forall i, j :: 0 <= i < j < |cs| ==> cs[i] != cs[j]) && Sum(s.records, SizeOf) < TWO63
    ensures PlainBytesIn(s, cs) == Sum(s.records, SizeIfOneOf(cs))
  {
    if cs == [] {
      ZeroSum(s.records, SizeIfOneOf(cs), |s.records|);
    } else {
      var rest, c := cs[..|cs| - 1], cs[|cs| - 1];
      assert cs == rest + [c];
      PlainCategorySums(s, rest);
      CategoriesAddUp(s.records, rest, c, |s.records|);
      PartAtMost(s.records, c, |s.records|);
      WrapExactly(Sum(s.records, SizeInCategory(c)));
    }
  }

  /** The byte total is the real sum of the sizes exactly when that fits 63 bits;
      then the category bytes are real sums too, and add up to it. */
  lemma BytesAddUpExactly(limit: nat, n: nat, actions: seq<Action>, t: Inventory, categories: seq<string>)
    requires limit < TWO63 && Run(Init(limit, n), actions, t)
    requires (forall w :: w in t.workers ==> w == Idle) && CoversCategories(t, categories)
    ensures t.totalBytes == Sum(t.records, SizeOf) <==> Sum(t.records, SizeOf) < TWO63
    ensures Sum(t.records, SizeOf) < TWO63 ==> PlainBytesIn(t, categories) == t.totalBytes
  {
    InitInv(limit, n);
    RunKeepsInv(Init(limit, n), actions, t);
    NothingUnderWay(t);
    WrapExactly(Sum(t.records, SizeOf));
    if Sum(t.records, SizeOf) < TWO63 {
      PlainCategorySums(t, categories);
      AllCategorized(t.records, categories, |t.records|);
    }
  }
}
