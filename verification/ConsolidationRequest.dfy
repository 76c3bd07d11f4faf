/**
 A whole consolidation request with arbitrary failures and cancellations but no
 outside writers: what happens to every path, to the physical copies and to the
 keepers.
 */
module ConsolidationRequest {
  import opened Bytes
  import opened Records
  import opened FileSystem
  import opened Consolidation
  import opened ConsolidationItem

  datatype Batch = Batch(
    sha: Content -> string,
    hash: string,
    keepers: seq<FileRecord>,
    selected: seq<FileRecord>,
    backups: nat -> Path,           // the random backup name drawn for each candidate
    choices: nat -> nat -> Choice,  // how each call made for each candidate ends
    stopped: nat -> bool)           // whether cancellation is seen before a candidate

  function JobAt(b: Batch, n: nat): Job
    requires n < |b.selected|
  {
    Job(b.sha, b.hash, b.keepers, b.selected[n], b.backups(n))
  }

  /** The first n candidates of the request, one after the other. */
  function Run(b: Batch, w: World, n: nat): (r: (World, seq<Item>))
    requires n <= |b.selected|
    ensures |r.1| == n
  {
    if n == 0 then (w, [])
    else
      var (before, items) := Run(b, w, n - 1);
      if b.stopped(n - 1) then (before, items + [Item(b.selected[n - 1].path, Cancelled, None)])
      else
        var end := Finish(JobAt(b, n - 1), Start(before), b.choices(n - 1), 0);
        (end.world, items + [end.pc.item])
  }

  /** What request validation guarantees about the records. */
  ghost predicate Validated(b: Batch) {
    && (forall i, j :: 0 <= i < j < |b.selected| ==>
          b.selected[i].path != b.selected[j].path && b.selected[i].identity != b.selected[j].identity)
    && (forall k, t :: k in b.keepers && t in b.selected ==> k.identity != t.identity)
  }

  /** The path reads bytes that carry the group's digest. */
  ghost predicate Reads(b: Batch, w: World, p: Path) {
    p in w.names && b.sha(Look(w, w.names[p]).bytes) == b.hash
  }

  /** The distinct physical objects holding the group's bytes. */
  function Copies(b: Batch, w: World): set<Identity> {
    set id | id in w.objects && b.sha(w.objects[id].bytes) == b.hash
  }

  function CountConsolidated(items: seq<Item>): nat {
    if items == [] then 0
    else CountConsolidated(items[..|items| - 1]) + (if items[|items| - 1].status == Consolidated then 1 else 0)
  }

  /** One candidate moves the world as its item says; `Step` of the request. */
  lemma NextItem(b: Batch, w: World, n: nat) returns (k: FileRecord)
    requires n < |b.selected| && Idle(Run(b, w, n).0)
    ensures var w1, w2 := Run(b, w, n).0, Run(b, w, n + 1).0;
            var item := Run(b, w, n + 1).1[n];
            && Run(b, w, n + 1).1 == Run(b, w, n).1 + [item]
            && Idle(w2) && Settled(JobAt(b, n), w1, w2, k, item)
  {
    var w1 := Run(b, w, n).0;
    k := b.selected[n];
    if !b.stopped(n) {
      var job := JobAt(b, n);
      assert Tracks(job, w1, Start(w1), k);
      k := RunSettles(job, w1, Start(w1), b.choices(n), 0, k);
      SettledWorldOk(job, w1, Run(b, w, n + 1).0, k, Run(b, w, n + 1).1[n]);
    }
  }

  /** Once cancellation is seen, every candidate from then on is reported cancelled
      and nothing is touched. */
  lemma {:induction false} NothingAfterCancellation(b: Batch, w: World, m: nat, n: nat)
    requires m <= n <= |b.selected| && forall i :: m <= i < n ==> b.stopped(i)
    ensures Run(b, w, n).0 == Run(b, w, m).0 && |Run(b, w, m).1| == m && Run(b, w, n).1[..m] == Run(b, w, m).1
    ensures forall i :: m <= i < n ==> Run(b, w, n).1[i] == Item(b.selected[i].path, Cancelled, None)
    decreases n
  {
    if m < n { NothingAfterCancellation(b, w, m, n - 1); }
  }

  lemma SettledWorldOk(job: Job, w: World, w': World, k: FileRecord, item: Item)
    requires WorldOk(w) && Settled(job, w, w', k, item) && w'.handles == {}
    ensures WorldOk(w')
  {
    if item.status == Consolidated || item.backup.Some? {
      assert job.target.path in Links(w, job.target.identity);
    }
    forall p | p in w'.names
      ensures w'.names[p] in w'.objects
    {
      if p in w.names && w.names[p] == job.target.identity { assert p in Links(w, job.target.identity); }
    }
  }

  lemma {:induction false} RunStaysIdle(b: Batch, w: World, n: nat)
    requires n <= |b.selected| && Idle(w)
    ensures Idle(Run(b, w, n).0)
  {
    if n > 0 {
      RunStaysIdle(b, w, n - 1);
      var _ := NextItem(b, w, n - 1);
    }
  }

  /** A name of any object but the candidate survives the candidate's turn. */
  lemma OtherNamesStay(job: Job, w: World, w': World, k: FileRecord, item: Item, p: Path)
    requires WorldOk(w) && WorldOk(w') && Settled(job, w, w', k, item) && p in w.names
    ensures w.names[p] != job.target.identity ==>
              Bound(w', p, w.names[p]) && Look(w', w.names[p]) == Look(w, w.names[p])
    ensures w.names[p] == job.target.identity && w'.names != w.names ==> p == job.target.path
  {
    if w'.names != w.names {
      assert job.target.path in Links(w, job.target.identity);
      if w.names[p] == job.target.identity { assert p in Links(w, job.target.identity); }
    }
  }

  /** A name of an object that no candidate is keeps naming it, with its content. */
  lemma {:induction false} UnselectedStays(b: Batch, w: World, n: nat, p: Path)
    requires n <= |b.selected| && Idle(w) && p in w.names
    requires forall i :: 0 <= i < n ==> b.selected[i].identity != w.names[p]
    ensures Bound(Run(b, w, n).0, p, w.names[p]) && Look(Run(b, w, n).0, w.names[p]) == Look(w, w.names[p])
  {
    if n > 0 {
      UnselectedStays(b, w, n - 1, p);
      RunStaysIdle(b, w, n - 1);
      var k := NextItem(b, w, n - 1);
      OtherNamesStay(JobAt(b, n - 1), Run(b, w, n - 1).0, Run(b, w, n).0, k, Run(b, w, n).1[n - 1], p);
    }
  }

  /** Path `p` reads the group's bytes, or the item of a candidate with that path
      reported a backup where the candidate itself now is. */
  ghost predicate StillReads(b: Batch, w: World, items: seq<Item>, p: Path)
    requires |items| <= |b.selected|
  {
    || Reads(b, w, p)
    || (exists i :: 0 <= i < |items| && ReadsAtBackup(b, w, items[i], b.selected[i], p))
  }

  ghost predicate ReadsAtBackup(b: Batch, w: World, item: Item, r: FileRecord, p: Path) {
    && r.path == p && item.path == p && item.backup.Some?
    && Bound(w, item.backup.value, r.identity) && Reads(b, w, item.backup.value)
  }

  lemma ReadsAfterItem(b: Batch, w: World, w': World, n: nat, k: FileRecord, item: Item, p: Path)
    requires n < |b.selected| && WorldOk(w) && WorldOk(w')
    requires Settled(JobAt(b, n), w, w', k, item) && Reads(b, w, p)
    ensures Reads(b, w', p) || ReadsAtBackup(b, w', item, b.selected[n], p)
  {
    OtherNamesStay(JobAt(b, n), w, w', k, item, p);
  }

  lemma BackupAfterItem(b: Batch, w: World, w': World, n: nat, k: FileRecord, item: Item, earlier: Item, r: FileRecord,
                        p: Path)
    requires n < |b.selected| && WorldOk(w) && WorldOk(w')
    requires Settled(JobAt(b, n), w, w', k, item) && ReadsAtBackup(b, w, earlier, r, p)
    requires r.identity != b.selected[n].identity
    ensures ReadsAtBackup(b, w', earlier, r, p)
  {
    OtherNamesStay(JobAt(b, n), w, w', k, item, earlier.backup.value);
  }

  lemma StillReadsAfterItem(b: Batch, w: World, items: seq<Item>, w': World, n: nat, k: FileRecord, item: Item, p: Path)
    requires n < |b.selected| && |items| == n && WorldOk(w) && WorldOk(w') && Validated(b)
    requires Settled(JobAt(b, n), w, w', k, item) && StillReads(b, w, items, p)
    ensures StillReads(b, w', items + [item], p)
  {
    if Reads(b, w, p) {
      ReadsAfterItem(b, w, w', n, k, item, p);
      assert (items + [item])[n] == item;
    } else {
      var i :| 0 <= i < n && ReadsAtBackup(b, w, items[i], b.selected[i], p);
      BackupAfterItem(b, w, w', n, k, item, items[i], b.selected[i], p);
      assert (items + [item])[i] == items[i];
    }
  }

  lemma StillReadsAfterTurn(b: Batch, w: World, n: nat, p: Path)
    requires n < |b.selected| && Idle(Run(b, w, n).0) && Validated(b)
    requires StillReads(b, Run(b, w, n).0, Run(b, w, n).1, p)
    ensures StillReads(b, Run(b, w, n + 1).0, Run(b, w, n + 1).1, p)
  {
    var k := NextItem(b, w, n);
    StillReadsAfterItem(b, Run(b, w, n).0, Run(b, w, n).1, Run(b, w, n + 1).0, n, k, Run(b, w, n + 1).1[n], p);
  }

  /** Conservation of content: whatever fails, every path that read the group's
      bytes before the request reads them afterwards, or its reported backup does. */
  lemma {:induction false} EveryPathStillReads(b: Batch, w: World, n: nat, p: Path)
    requires n <= |b.selected| && Idle(w) && Validated(b) && Reads(b, w, p)
    ensures StillReads(b, Run(b, w, n).0, Run(b, w, n).1, p)
  {
    if n > 0 {
      EveryPathStillReads(b, w, n - 1, p);
      RunStaysIdle(b, w, n - 1);
      StillReadsAfterTurn(b, w, n - 1, p);
    }
  }

  lemma CopiesAfterItem(b: Batch, w: World, w': World, n: nat, k: FileRecord, item: Item)
    requires n < |b.selected| && WorldOk(w) && Settled(JobAt(b, n), w, w', k, item)
    ensures |Copies(b, w')| == |Copies(b, w)| - (if item.status == Consolidated then 1 else 0)
    ensures forall id :: id in w.objects && id != b.selected[n].identity ==>
              id in w'.objects && w'.objects[id] == w.objects[id]
  {
    var t := b.selected[n];
    if item.status == Consolidated {
      assert t.path in Links(w, t.identity);
      assert Copies(b, w') == Copies(b, w) - {t.identity};
    } else {
      assert Copies(b, w') == Copies(b, w);
    }
  }

  lemma CopiesAfterTurn(b: Batch, w: World, n: nat) returns (item: Item)
    requires n < |b.selected| && Idle(w)
    ensures Run(b, w, n + 1).1 == Run(b, w, n).1 + [item]
    ensures |Copies(b, Run(b, w, n + 1).0)|
         == |Copies(b, Run(b, w, n).0)| - (if item.status == Consolidated then 1 else 0)
    ensures forall id :: id in Run(b, w, n).0.objects && id != b.selected[n].identity ==>
              id in Run(b, w, n + 1).0.objects && Run(b, w, n + 1).0.objects[id] == Run(b, w, n).0.objects[id]
  {
    RunStaysIdle(b, w, n);
    var k := NextItem(b, w, n);
    item := Run(b, w, n + 1).1[n];
    CopiesAfterItem(b, Run(b, w, n).0, Run(b, w, n + 1).0, n, k, item);
  }

  lemma CountOneMore(items: seq<Item>, item: Item)
    ensures CountConsolidated(items + [item])
         == CountConsolidated(items) + (if item.status == Consolidated then 1 else 0)
  {
    assert (items + [item])[..|items|] == items;
  }

  /** Conservation of copies: the number of distinct objects holding the group's
      bytes drops by exactly the number of Consolidated items, and every object
      that was not itself a selected candidate survives with its bytes. */
  lemma {:induction false} CopiesDropByConsolidated(b: Batch, w: World, n: nat)
    requires n <= |b.selected| && Idle(w)
    ensures |Copies(b, Run(b, w, n).0)| + CountConsolidated(Run(b, w, n).1) == |Copies(b, w)|
    ensures forall id :: id in w.objects && (forall i :: 0 <= i < n ==> b.selected[i].identity != id) ==>
              id in Run(b, w, n).0.objects && Run(b, w, n).0.objects[id] == w.objects[id]
  {
    if n > 0 {
      CopiesDropByConsolidated(b, w, n - 1);
      var item := CopiesAfterTurn(b, w, n - 1);
      CountOneMore(Run(b, w, n - 1).1, item);
    }
  }

  /** At least one keeper survives every request that consolidates anything. */
  lemma KeepersSurvive(b: Batch, w: World, k: FileRecord)
    requires Idle(w) && Validated(b) && k in b.keepers && k.identity in w.objects
    ensures var w' := Run(b, w, |b.selected|).0;
            k.identity in w'.objects && w'.objects[k.identity] == w.objects[k.identity]
  {
    CopiesDropByConsolidated(b, w, |b.selected|);
  }

  function KeeperIdentities(b: Batch): set<Identity> { set k | k in b.keepers :: k.identity }

  ghost predicate Used(b: Batch, w: World, items: seq<Item>, used: set<Identity>) {
    && used <= KeeperIdentities(b) && |used| == CountConsolidated(items)
    && forall id :: id in used ==> |Links(w, id)| >= 2
  }

  lemma UsedAfterItem(b: Batch, w: World, items: seq<Item>, w': World, n: nat, k: FileRecord, item: Item,
                      used: set<Identity>)
    returns (used': set<Identity>)
    requires n < |b.selected| && WorldOk(w) && Validated(b)
    requires Settled(JobAt(b, n), w, w', k, item) && Used(b, w, items, used)
    ensures Used(b, w', items + [item], used')
  {
    var t := b.selected[n];
    assert (items + [item])[..|items|] == items;
    forall id | id in used
      ensures |Links(w', id)| >= 2
    {
      LinksStay(JobAt(b, n), w, w', k, item, id);
    }
    used' := used;
    if item.status == Consolidated {
      assert k.identity !in used;
      assert t.path in Links(w, t.identity);
      assert Links(w', k.identity) == Links(w, k.identity) + {t.path};
      used' := used + {k.identity};
    }
  }

  /** The keepers already linked to: each has two names and will not verify again. */
  lemma {:induction false} UsedKeepers(b: Batch, w: World, n: nat) returns (used: set<Identity>)
    requires n <= |b.selected| && Idle(w) && Validated(b)
    ensures Used(b, Run(b, w, n).0, Run(b, w, n).1, used)
  {
    used := {};
    if n > 0 {
      used := UsedKeepers(b, w, n - 1);
      RunStaysIdle(b, w, n - 1);
      var k := NextItem(b, w, n - 1);
      used := UsedAfterItem(b, Run(b, w, n - 1).0, Run(b, w, n - 1).1, Run(b, w, n).0, n - 1, k, Run(b, w, n).1[n - 1],
                            used);
    }
  }

  lemma LinksStay(job: Job, w: World, w': World, k: FileRecord, item: Item, id: Identity)
    requires Settled(job, w, w', k, item) && id != job.target.identity
    ensures |Links(w, id)| <= |Links(w', id)|
  {
    if w'.names != w.names { assert job.target.path in Links(w, job.target.identity); }
    SubsetSize(Links(w, id), Links(w', id));
  }

  lemma {:induction false} SubsetSize<T>(a: set<T>, b: set<T>)
    requires a <= b
    ensures |a| <= |b|
  {
    if a != {} {
      var x :| x in a;
      SubsetSize(a - {x}, b - {x});
    }
  }

  lemma {:induction false} ImageSize(records: seq<FileRecord>, ids: set<Identity>)
    requires forall id :: id in ids ==> exists k :: k in records && k.identity == id
    ensures |ids| <= |records|
  {
    if records == [] {
      assert ids == {};
    } else {
      forall id | id in ids - {records[0].identity}
        ensures exists k :: k in records[1..] && k.identity == id
      {
        var k :| k in records && k.identity == id;
        assert k in records[1..];
      }
      ImageSize(records[1..], ids - {records[0].identity});
    }
  }

  /** A linked keeper stops verifying, so a request never consolidates more
      candidates than it has keepers. */
  lemma AtMostOnePerKeeper(b: Batch, w: World)
    requires Idle(w) && Validated(b)
    ensures CountConsolidated(Run(b, w, |b.selected|).1) <= |b.keepers|
  {
    var used := UsedKeepers(b, w, |b.selected|);
    forall id | id in used
      ensures exists k :: k in b.keepers && k.identity == id
    {
      assert id in KeeperIdentities(b);
    }
    ImageSize(b.keepers, used);
  }
}
