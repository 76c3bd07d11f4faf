/**
 Which files the inventory holds: those that readers have begun to record, each as
 often as it was begun, and a reader is turned away only when the limit is used up.
 */
module InventoryFiles {
  import opened Int64
  import opened Records
  import opened Sums
  import opened SurfaceInventory

  predicate NobodyRefused(s: Inventory) { forall i :: 0 <= i < |s.workers| ==> s.workers[i] != Refused }

  /** The worker has begun to record the file and not yet appended it. */
  function InHand(f: FileRecord): Worker -> nat {
    (w: Worker) => if (w.Loading? || w.Swapping? || w.Appending?) && w.file == f then 1 else 0
  }

  function Begun(actions: seq<Action>, f: FileRecord): nat {
    if actions == [] then 0
    else (if actions[0].Begin? && actions[0].file == f then 1 else 0) + Begun(actions[1..], f)
  }

  /** How often the file is recorded or about to be. */
  function Held(s: Inventory, f: FileRecord): nat { multiset(s.records)[f] + Sum(s.workers, InHand(f)) }

  lemma RefusedStays(s: Inventory, a: Action)
    requires Enabled(s, a) && NobodyRefused(Apply(s, a))
    ensures NobodyRefused(s)
  {
    var t := Apply(s, a);
    forall i | 0 <= i < |s.workers| ensures s.workers[i] != Refused { assert t.workers[i] != Refused; }
  }

  lemma StepHeld(s: Inventory, a: Action, f: FileRecord)
    requires Enabled(s, a) && NobodyRefused(Apply(s, a))
    ensures Held(Apply(s, a), f) == Held(s, f) + if a.Begin? && a.file == f then 1 else 0
  {
    var t := Apply(s, a);
    assert t.workers[a.i] != Refused;
    assert t.workers == s.workers[a.i := t.workers[a.i]];
    SumUpdate(s.workers, a.i, t.workers[a.i], InHand(f));
  }

  lemma {:induction false} RunHeld(s: Inventory, actions: seq<Action>, t: Inventory, f: FileRecord)
    requires Run(s, actions, t) && NobodyRefused(t)
    ensures NobodyRefused(s) && Held(t, f) == Held(s, f) + Begun(actions, f)
    decreases |actions|
  {
    if actions != [] {
      RunHeld(Apply(s, actions[0]), actions[1..], t, f);
      RefusedStays(s, actions[0]);
      StepHeld(s, actions[0], f);
    }
  }

  /** When a surface scan ends well, the records are the files that were begun. */
  lemma RecordsAreBegun(limit: nat, n: nat, actions: seq<Action>, t: Inventory, f: FileRecord)
    requires Run(Init(limit, n), actions, t) && forall w :: w in t.workers ==> w == Idle
    ensures multiset(t.records)[f] == Begun(actions, f)
  {
    forall i | 0 <= i < |t.workers| ensures t.workers[i] == Idle { assert t.workers[i] in t.workers; }
    RunHeld(Init(limit, n), actions, t, f);
    ZeroSum(t.workers, InHand(f), |t.workers|);
    ZeroSum(Init(limit, n).workers, InHand(f), n);
  }

  /** Nobody has been refused, or all places are taken. */
  predicate FullOrOpen(s: Inventory) { NobodyRefused(s) || s.reserved == s.limit }

  lemma {:induction false} RunFullOrOpen(s: Inventory, actions: seq<Action>, t: Inventory)
    requires Inv(s) && FullOrOpen(s) && Run(s, actions, t)
    ensures FullOrOpen(t)
    decreases |actions|
  {
    if actions != [] {
      RunKeepsInv(s, [actions[0]], Apply(s, actions[0]));
      FullStays(s, actions[0]);
      RunFullOrOpen(Apply(s, actions[0]), actions[1..], t);
    }
  }

  /** Under any interleaving nobody is refused before all places are taken. */
  lemma RefusedOnlyWhenFull(limit: nat, n: nat, actions: seq<Action>, t: Inventory, i: nat)
    requires limit < TWO63 && Run(Init(limit, n), actions, t) && i < |t.workers| && t.workers[i] == Refused
    ensures t.reserved == |t.tickets| == limit
  {
    InitInv(limit, n);
    RunFullOrOpen(Init(limit, n), actions, t);
    TicketsExact(limit, n, actions, t);
    LimitStays(Init(limit, n), actions, t);
  }

  lemma {:induction false} LimitStays(s: Inventory, actions: seq<Action>, t: Inventory)
    requires Run(s, actions, t)
    ensures t.limit == s.limit
    decreases |actions|
  {
    if actions != [] { LimitStays(Apply(s, actions[0]), actions[1..], t); }
  }

  lemma FullStays(s: Inventory, a: Action)
    requires Enabled(s, a) && Inv(s) && Inv(Apply(s, a)) && FullOrOpen(s)
    ensures FullOrOpen(Apply(s, a))
  {
    var t := Apply(s, a);
    if a.Swap? && s.reserved == s.limit { assert s.workers[a.i].seen < s.limit; }
    if a.Load? && s.reserved < s.limit { assert NobodyRefused(t); }
  }
}
