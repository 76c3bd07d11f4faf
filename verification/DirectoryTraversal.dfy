/**
 What every interleaving of directory workers keeps: the pending counter is
 exact, idle workers are woken when there is work for them, nobody sleeps
 forever, and an unclosed traversal ends with every directory handled once.
 */
module DirectoryTraversal {
  import opened Bytes
  import opened Sums
  import opened DirectoryQueue

  function Busy(w: Worker): nat { if w.Reading? || w.Finishing? then 1 else 0 }
  function AtNext(w: Worker): nat { if w.Ready? then 1 else 0 }
  function InHand(d: Dir): Worker -> nat { (w: Worker) => if (w.Reading? || w.Finishing?) && w.dir == d then 1 else 0 }
  function Unlisted(d: Dir): Worker -> nat { (w: Worker) => if w.Reading? then Occurs(w.left, d) else 0 }

  /** Waking sleepers leaves every measure alone that does not see sleep. */
  lemma {:induction false} WakeAllNeutral(ws: seq<Worker>, f: Worker -> nat, n: nat)
    requires f(Asleep) == f(Ready) && n <= |ws|
    ensures SumTo(WakeAll(ws), f, n) == SumTo(ws, f, n)
  {
    if n > 0 { WakeAllNeutral(ws, f, n - 1); }
  }

  lemma {:induction false} OccursSplit(a: seq<Dir>, b: seq<Dir>, d: Dir)
    ensures Occurs(a + b, d) == Occurs(a, d) + Occurs(b, d)
  {
    if b == [] {
      assert a + b == a;
    } else {
      var n := |b| - 1;
      assert (a + b)[..|a + b| - 1] == a + b[..n];
      OccursSplit(a, b[..n], d);
    }
  }

  lemma OccursHead(dirs: seq<Dir>, d: Dir)
    requires dirs != []
    ensures Occurs(dirs, d) == Occurs([dirs[0]], d) + Occurs(dirs[1..], d)
  {
    assert dirs == [dirs[0]] + dirs[1..];
    OccursSplit([dirs[0]], dirs[1..], d);
  }

  ghost predicate Scheduled(s: System) {
    // the counter is exact
    && s.queue.pending == |s.queue.dirs| + Sum(s.workers, Busy)
    // sleepers sleep only while there is unfinished work, and whenever anybody
    // sleeps there are enough awake idle workers for everything queued
    && (SomeAsleep(s.workers) ==> s.queue.pending > 0 && !s.queue.closed)
    && (SomeAsleep(s.workers) ==> |s.queue.dirs| <= Sum(s.workers, AtNext))
    // nobody leaves early
    && (Exited in s.workers ==> s.queue.closed || s.queue.pending == 0)
  }

  /** The accounts of one directory `d`. */
  ghost predicate Accounted(roots: seq<Dir>, s: System, d: Dir) {
    // every accepted directory is queued, in somebody's hands, or finished
    && s.added[d] == multiset(s.queue.dirs)[d] + s.handed[d]
    && s.handed[d] == Sum(s.workers, InHand(d)) + s.finished[d]
    // no directory of the tree is lost
    && Occurs(roots, d) == Occurs(s.queue.dirs, d) + s.handed[d] + Sum(s.workers, Unlisted(d)) + Occurs(s.skipped, d)
  }

  ghost predicate Inv(roots: seq<Dir>, s: System, d: Dir) { Scheduled(s) && Accounted(roots, s, d) }

  lemma InitInv(roots: seq<Dir>, n: nat, d: Dir)
    ensures Inv(roots, Init(roots, n), d)
  {
    AllReady(n, Busy, n);
    AllReady(n, InHand(d), n);
    AllReady(n, Unlisted(d), n);
  }

  lemma {:induction false} AllReady(n: nat, f: Worker -> nat, m: nat)
    requires f(Ready) == 0 && m <= n
    ensures SumTo(seq(n, _ => Ready), f, m) == 0
  {
    if m > 0 { AllReady(n, f, m - 1); }
  }

  /** What the change of one worker does to all four measures. */
  lemma WorkerChanges(ws: seq<Worker>, i: nat, w: Worker, d: Dir)
    requires i < |ws|
    ensures Sum(ws[i := w], Busy) + Busy(ws[i]) == Sum(ws, Busy) + Busy(w)
    ensures Sum(ws[i := w], AtNext) + AtNext(ws[i]) == Sum(ws, AtNext) + AtNext(w)
    ensures Sum(ws[i := w], InHand(d)) + InHand(d)(ws[i]) == Sum(ws, InHand(d)) + InHand(d)(w)
    ensures Sum(ws[i := w], Unlisted(d)) + Unlisted(d)(ws[i]) == Sum(ws, Unlisted(d)) + Unlisted(d)(w)
    ensures forall x :: x in ws[i := w] ==> x == w || x in ws
  {
    SumUpdate(ws, i, w, Busy);
    SumUpdate(ws, i, w, AtNext);
    SumUpdate(ws, i, w, InHand(d));
    SumUpdate(ws, i, w, Unlisted(d));
  }

  lemma EverybodyWakes(ws: seq<Worker>, d: Dir)
    ensures Sum(WakeAll(ws), Busy) == Sum(ws, Busy)
    ensures Sum(WakeAll(ws), InHand(d)) == Sum(ws, InHand(d))
    ensures Sum(WakeAll(ws), Unlisted(d)) == Sum(ws, Unlisted(d))
    ensures !SomeAsleep(WakeAll(ws))
    ensures Exited in WakeAll(ws) ==> Exited in ws
  {
    WakeAllNeutral(ws, Busy, |ws|);
    WakeAllNeutral(ws, InHand(d), |ws|);
    WakeAllNeutral(ws, Unlisted(d), |ws|);
  }

  lemma NextKeepsInv(roots: seq<Dir>, s: System, i: nat, d: Dir)
    requires Inv(roots, s, d) && Enabled(s, CallNext(i))
    ensures Inv(roots, Apply(s, CallNext(i)), d)
  {
    var q := s.queue;
    match NextOutcome(q)
    case Sleep => WorkerChanges(s.workers, i, Asleep, d);
    case Stop => WorkerChanges(s.workers, i, Exited, d);
    case Take(dir) =>
      WorkerChanges(s.workers, i, Reading(dir, dir.subdirs), d);
      assert q.dirs == q.dirs[..|q.dirs| - 1] + [dir];
  }

  lemma AddKeepsScheduled(s: System, i: nat, woken: Option<nat>)
    requires Scheduled(s) && Enabled(s, AddChild(i, woken)) && !s.queue.closed
    ensures Scheduled(Apply(s, AddChild(i, woken)))
  {
    var ws := s.workers;
    var w' := Reading(ws[i].dir, ws[i].left[1..]);
    var reading := ws[i := w'];
    SumUpdate(ws, i, Exited, Busy);
    SumUpdate(ws, i, w', Busy);
    SumUpdate(ws, i, w', AtNext);
    assert forall x :: x in reading ==> x == w' || x in ws;
    if woken.Some? {
      var j := woken.value;
      assert reading[j] == Asleep;
      SumUpdate(reading, j, Ready, Busy);
      SumUpdate(reading, j, Ready, AtNext);
      assert forall x :: x in reading[j := Ready] ==> x == Ready || x in reading;
    }
  }

  lemma AddKeepsAccounted(roots: seq<Dir>, s: System, i: nat, woken: Option<nat>, d: Dir)
    requires Accounted(roots, s, d) && Enabled(s, AddChild(i, woken)) && !s.queue.closed
    ensures Accounted(roots, Apply(s, AddChild(i, woken)), d)
  {
    var w := s.workers[i];
    var w' := Reading(w.dir, w.left[1..]);
    var reading := s.workers[i := w'];
    SumUpdate(s.workers, i, w', InHand(d));
    SumUpdate(s.workers, i, w', Unlisted(d));
    OccursHead(w.left, d);
    OccursSplit(s.queue.dirs, [w.left[0]], d);
    if woken.Some? {
      assert reading[woken.value] == Asleep;
      SumUpdate(reading, woken.value, Ready, InHand(d));
      SumUpdate(reading, woken.value, Ready, Unlisted(d));
    }
  }

  lemma RefusedAddKeepsInv(roots: seq<Dir>, s: System, i: nat, woken: Option<nat>, d: Dir)
    requires Inv(roots, s, d) && Enabled(s, AddChild(i, woken)) && s.queue.closed
    ensures Inv(roots, Apply(s, AddChild(i, woken)), d)
  {
    WorkerChanges(s.workers, i, Finishing(s.workers[i].dir, true), d);
    OccursSplit(s.skipped, s.workers[i].left, d);
  }

  lemma SkipKeepsInv(roots: seq<Dir>, s: System, i: nat, d: Dir)
    requires Inv(roots, s, d) && Enabled(s, SkipChild(i))
    ensures Inv(roots, Apply(s, SkipChild(i)), d)
  {
    var w := s.workers[i];
    WorkerChanges(s.workers, i, Reading(w.dir, w.left[1..]), d);
    OccursHead(w.left, d);
    OccursSplit(s.skipped, [w.left[0]], d);
  }

  lemma StopKeepsInv(roots: seq<Dir>, s: System, i: nat, failed: bool, d: Dir)
    requires Inv(roots, s, d) && Enabled(s, StopReading(i, failed))
    ensures Inv(roots, Apply(s, StopReading(i, failed)), d)
  {
    WorkerChanges(s.workers, i, Finishing(s.workers[i].dir, failed), d);
    OccursSplit(s.skipped, s.workers[i].left, d);
  }

  lemma DoneKeepsInv(roots: seq<Dir>, s: System, i: nat, d: Dir)
    requires Inv(roots, s, d) && Enabled(s, CallDone(i))
    ensures Inv(roots, Apply(s, CallDone(i)), d)
  {
    var w := if s.workers[i].failed then Failing else Ready;
    WorkerChanges(s.workers, i, w, d);
    EverybodyWakes(s.workers[i := w], d);
  }

  lemma CloseKeepsInv(roots: seq<Dir>, s: System, a: Action, d: Dir)
    requires Inv(roots, s, d) && Enabled(s, a) && (a.CallClose? || a.Cancel?)
    ensures Inv(roots, Apply(s, a), d)
  {
    if a.CallClose? {
      WorkerChanges(s.workers, a.i, Exited, d);
      EverybodyWakes(s.workers[a.i := Exited], d);
    } else {
      EverybodyWakes(s.workers, d);
    }
  }

  lemma StepKeepsInv(roots: seq<Dir>, s: System, a: Action, d: Dir)
    requires Inv(roots, s, d) && Enabled(s, a)
    ensures Inv(roots, Apply(s, a), d)
  {
    match a
    case CallNext(i) => NextKeepsInv(roots, s, i, d);
    case AddChild(i, woken) =>
      if s.queue.closed {
        RefusedAddKeepsInv(roots, s, i, woken, d);
      } else {
        AddKeepsScheduled(s, i, woken);
        AddKeepsAccounted(roots, s, i, woken, d);
      }
    case SkipChild(i) => SkipKeepsInv(roots, s, i, d);
    case StopReading(i, failed) => StopKeepsInv(roots, s, i, failed, d);
    case CallDone(i) => DoneKeepsInv(roots, s, i, d);
    case CallClose(_) => CloseKeepsInv(roots, s, a, d);
    case Cancel => CloseKeepsInv(roots, s, a, d);
  }

  // ------------------------------------------------------------------
  // Whole runs.

  /** `t` is reached from `s` by these actions, in any interleaving. */
  predicate Run(s: System, actions: seq<Action>, t: System)
    decreases |actions|
  {
    if actions == [] then s == t
    else Enabled(s, actions[0]) && Run(Apply(s, actions[0]), actions[1..], t)
  }

  lemma {:induction false} RunKeepsInv(roots: seq<Dir>, s: System, actions: seq<Action>, t: System, d: Dir)
    requires Inv(roots, s, d) && Run(s, actions, t)
    ensures Inv(roots, t, d)
    decreases |actions|
  {
    if actions != [] {
      StepKeepsInv(roots, s, actions[0], d);
      RunKeepsInv(roots, Apply(s, actions[0]), actions[1..], t, d);
    }
  }

  predicate CanAct(w: Worker) { w != Asleep && w != Exited }

  /** Nobody sleeps forever: in every reachable state in which some worker has
      not exited, some worker can take a step. */
  lemma NobodySleepsForever(roots: seq<Dir>, n: nat, actions: seq<Action>, t: System) returns (i: nat)
    requires Run(Init(roots, n), actions, t)
    requires exists w :: w in t.workers && w != Exited
    ensures i < |t.workers| && CanAct(t.workers[i])
  {
    var d := Dir("", []);
    InitInv(roots, n, d);
    RunKeepsInv(roots, Init(roots, n), actions, t, d);
    if SomeAsleep(t.workers) {
      if Sum(t.workers, Busy) > 0 {
        i := PositiveSum(t.workers, Busy, |t.workers|);
      } else {
        i := PositiveSum(t.workers, AtNext, |t.workers|);
      }
    } else {
      i :| 0 <= i < |t.workers| && t.workers[i] != Exited;
    }
  }

  /** A signal per added directory is enough: in every reachable state in which
      some worker sleeps, work is unfinished and for every queued directory an
      awake idle worker is on its way to take it; and the counter is exact. */
  lemma SignalsSuffice(roots: seq<Dir>, n: nat, actions: seq<Action>, t: System)
    requires Run(Init(roots, n), actions, t)
    ensures t.queue.pending == |t.queue.dirs| + Sum(t.workers, Busy)
    ensures SomeAsleep(t.workers) ==>
              t.queue.pending > 0 && !t.queue.closed && |t.queue.dirs| <= Sum(t.workers, AtNext)
  {
    var d := Dir("", []);
    InitInv(roots, n, d);
    RunKeepsInv(roots, Init(roots, n), actions, t, d);
  }

  lemma ActionOf(s: System, i: nat) returns (a: Action)
    requires i < |s.workers| && CanAct(s.workers[i])
    ensures a != Cancel && Enabled(s, a)
  {
    a := match s.workers[i]
      case Ready => CallNext(i)
      case Reading(_, _) => StopReading(i, false)
      case Finishing(_, _) => CallDone(i)
      case _ => CallClose(i);
  }

  /** A run that cannot be continued has lost all its workers: there is no deadlock. */
  lemma StuckOnlyWhenDone(roots: seq<Dir>, n: nat, actions: seq<Action>, t: System)
    requires Run(Init(roots, n), actions, t)
    requires forall a :: a != Cancel ==> !Enabled(t, a)
    ensures forall w :: w in t.workers ==> w == Exited
  {
    if exists w :: w in t.workers && w != Exited {
      var i := NobodySleepsForever(roots, n, actions, t);
      var a := ActionOf(t, i);
    }
  }

  /** When all workers have exited and the queue was never closed, each root and
      each added directory has been handed out exactly once and finished, and
      every directory of the tree is finished or lies in a subtree passed over. */
  lemma UnclosedTraversalComplete(roots: seq<Dir>, n: nat, actions: seq<Action>, t: System, d: Dir)
    requires n > 0 && Run(Init(roots, n), actions, t)
    requires !t.queue.closed && forall w :: w in t.workers ==> w == Exited
    ensures t.queue.dirs == [] && t.queue.pending == 0
    ensures t.added[d] == t.handed[d] == t.finished[d]
    ensures Occurs(roots, d) == t.finished[d] + Occurs(t.skipped, d)
  {
    InitInv(roots, n, d);
    RunKeepsInv(roots, Init(roots, n), actions, t, d);
    WorkersStay(Init(roots, n), actions, t);
    forall i | 0 <= i < |t.workers|
      ensures t.workers[i] == Exited
    {
      assert t.workers[i] in t.workers;
    }
    ZeroSum(t.workers, InHand(d), |t.workers|);
    ZeroSum(t.workers, Unlisted(d), |t.workers|);
  }

  lemma ClosedStep(s: System, a: Action)
    requires Enabled(s, a) && s.queue.closed
    ensures var t := Apply(s, a);
            t.queue.closed && t.queue.dirs == s.queue.dirs && t.handed == s.handed && t.added == s.added
  {
  }

  /** Once the queue is closed nothing more is accepted or handed out. */
  lemma {:induction false} NothingAfterClose(s: System, actions: seq<Action>, t: System)
    requires Run(s, actions, t) && s.queue.closed
    ensures t.queue.closed && t.queue.dirs == s.queue.dirs && t.handed == s.handed && t.added == s.added
    decreases |actions|
  {
    if actions != [] {
      ClosedStep(s, actions[0]);
      NothingAfterClose(Apply(s, actions[0]), actions[1..], t);
    }
  }

  predicate CarriesFailure(w: Worker) { w.Failing? || (w.Finishing? && w.failed) }

  /** A failure has closed the queue, or a worker still carries it. */
  predicate FailureKnown(s: System) {
    s.queue.closed || exists i :: 0 <= i < |s.workers| && CarriesFailure(s.workers[i])
  }

  lemma FailureStaysKnown(s: System, a: Action)
    requires Enabled(s, a) && (FailureKnown(s) || (a.StopReading? && a.failed))
    ensures FailureKnown(Apply(s, a))
  {
    var t := Apply(s, a);
    if s.queue.closed {
      ClosedStep(s, a);
    } else if a.StopReading? && a.failed {
      assert CarriesFailure(t.workers[a.i]);
    } else if !a.CallClose? && !a.Cancel? {
      var i :| 0 <= i < |s.workers| && CarriesFailure(s.workers[i]);
      assert CarriesFailure(t.workers[i]);
    }
  }

  lemma {:induction false} FailureKeptKnown(s: System, actions: seq<Action>, t: System)
    requires Run(s, actions, t)
    requires FailureKnown(s) || exists n :: 0 <= n < |actions| && actions[n].StopReading? && actions[n].failed
    ensures FailureKnown(t)
    decreases |actions|
  {
    if actions != [] {
      var rest := actions[1..];
      if FailureKnown(s) || (actions[0].StopReading? && actions[0].failed) {
        FailureStaysKnown(s, actions[0]);
      } else {
        var n :| 0 <= n < |actions| && actions[n].StopReading? && actions[n].failed;
        assert rest[n - 1] == actions[n];
      }
      FailureKeptKnown(Apply(s, actions[0]), rest, t);
    }
  }

  /** A reader that fails ends the traversal: when all workers have exited, the queue
      has been closed. */
  lemma FailureCloses(s: System, actions: seq<Action>, t: System, n: nat)
    requires Run(s, actions, t) && n < |actions| && actions[n].StopReading? && actions[n].failed
    requires forall w :: w in t.workers ==> w == Exited
    ensures t.queue.closed
  {
    FailureKeptKnown(s, actions, t);
    if !t.queue.closed {
      var i :| 0 <= i < |t.workers| && CarriesFailure(t.workers[i]);
      assert t.workers[i] in t.workers;
    }
  }

  lemma {:induction false} WorkersStay(s: System, actions: seq<Action>, t: System)
    requires Run(s, actions, t)
    ensures |t.workers| == |s.workers|
    decreases |actions|
  {
    if actions != [] { WorkersStay(Apply(s, actions[0]), actions[1..], t); }
  }

  /** The number of steps the directories of a finite tree can still cause. */
  function Load(dirs: seq<Dir>): nat {
    if dirs == [] then 0
    else Load(dirs[..|dirs| - 1]) + 3 + |dirs[|dirs| - 1].subdirs| + Load(dirs[|dirs| - 1].subdirs)
  }

  function WorkLeft(w: Worker): nat {
    if w.Reading? then 2 + |w.left| + Load(w.left) else if w.Finishing? then 1 else 0
  }

  function IdleRank(w: Worker): nat { if w.Ready? then 1 else if w.Failing? then 2 else 0 }

  function Work(s: System): nat { Load(s.queue.dirs) + Sum(s.workers, WorkLeft) }

  function Unrest(s: System): nat { Sum(s.workers, IdleRank) + (if s.queue.closed then 0 else |s.workers| + 1) }

  function Times(k: nat, n: nat): nat { if n == 0 then 0 else Times(k, n - 1) + k }

  /** A bound on the number of steps left. */
  function Measure(s: System): nat {
    Times(|s.workers| + 3, Work(s)) + Unrest(s)
  }

  lemma {:induction false} LoadSplit(a: seq<Dir>, b: seq<Dir>)
    ensures Load(a + b) == Load(a) + Load(b)
  {
    if b == [] {
      assert a + b == a;
    } else {
      assert (a + b)[..|a + b| - 1] == a + b[..|b| - 1];
      LoadSplit(a, b[..|b| - 1]);
    }
  }

  lemma LoadHead(dirs: seq<Dir>)
    requires dirs != []
    ensures Load(dirs) == Load([dirs[0]]) + Load(dirs[1..])
  {
    assert dirs == [dirs[0]] + dirs[1..];
    LoadSplit([dirs[0]], dirs[1..]);
  }

  lemma {:induction false} WakeAllRank(ws: seq<Worker>, n: nat)
    requires n <= |ws|
    ensures SumTo(WakeAll(ws), IdleRank, n) <= SumTo(ws, IdleRank, n) + n
    ensures SumTo(WakeAll(ws), WorkLeft, n) == SumTo(ws, WorkLeft, n)
  {
    if n > 0 { WakeAllRank(ws, n - 1); }
  }

  /** A step either does work, or leaves the work alone and tires the workers. */
  lemma NextProgress(s: System, i: nat)
    requires Enabled(s, CallNext(i))
    ensures var t := Apply(s, CallNext(i));
            if NextOutcome(s.queue).Take? then Work(t) < Work(s) && Sum(t.workers, IdleRank) <= Sum(s.workers, IdleRank)
            else Work(t) == Work(s) && Sum(t.workers, IdleRank) < Sum(s.workers, IdleRank)
  {
    var w := Apply(s, CallNext(i)).workers[i];
    SumUpdate(s.workers, i, w, IdleRank);
    SumUpdate(s.workers, i, w, WorkLeft);
  }

  lemma ReadProgress(s: System, a: Action)
    requires Enabled(s, a) && (a.SkipChild? || a.StopReading? || (a.AddChild? && s.queue.closed))
    ensures var t := Apply(s, a);
            Work(t) < Work(s) && Sum(t.workers, IdleRank) <= Sum(s.workers, IdleRank)
  {
    var w := s.workers[a.i];
    var w' := if a.SkipChild? then Reading(w.dir, w.left[1..])
              else if a.StopReading? then Finishing(w.dir, a.failed) else Finishing(w.dir, true);
    SumUpdate(s.workers, a.i, w', IdleRank);
    SumUpdate(s.workers, a.i, w', WorkLeft);
    if a.SkipChild? { LoadHead(w.left); }
  }

  lemma AddProgress(s: System, i: nat, woken: Option<nat>)
    requires Enabled(s, AddChild(i, woken)) && !s.queue.closed
    ensures var t := Apply(s, AddChild(i, woken));
            Work(t) < Work(s) && Sum(t.workers, IdleRank) <= Sum(s.workers, IdleRank) + 1
  {
    var w := s.workers[i];
    var w' := Reading(w.dir, w.left[1..]);
    var reading := s.workers[i := w'];
    LoadHead(w.left);
    LoadSplit(s.queue.dirs, [w.left[0]]);
    SumUpdate(s.workers, i, w', IdleRank);
    SumUpdate(s.workers, i, w', WorkLeft);
    if woken.Some? {
      assert reading[woken.value] == Asleep;
      SumUpdate(reading, woken.value, Ready, IdleRank);
      SumUpdate(reading, woken.value, Ready, WorkLeft);
    }
  }

  lemma DoneProgress(s: System, i: nat)
    requires Enabled(s, CallDone(i))
    ensures var t := Apply(s, CallDone(i));
            Work(t) < Work(s) && Sum(t.workers, IdleRank) <= Sum(s.workers, IdleRank) + 2 + |s.workers|
  {
    var w := if s.workers[i].failed then Failing else Ready;
    SumUpdate(s.workers, i, w, IdleRank);
    SumUpdate(s.workers, i, w, WorkLeft);
    WakeAllRank(s.workers[i := w], |s.workers|);
  }

  lemma CloseProgress(s: System, a: Action)
    requires Scheduled(s) && Enabled(s, a) && (a.CallClose? || a.Cancel?)
    ensures var t := Apply(s, a);
            && Work(t) == Work(s) && t.queue.closed
            && Sum(t.workers, IdleRank) <= Sum(s.workers, IdleRank) + |s.workers|
            && (s.queue.closed ==> Sum(t.workers, IdleRank) < Sum(s.workers, IdleRank))
  {
    if a.CallClose? {
      var exited := s.workers[a.i := Exited];
      SumUpdate(s.workers, a.i, Exited, IdleRank);
      SumUpdate(s.workers, a.i, Exited, WorkLeft);
      WakeAllRank(exited, |s.workers|);
      if s.queue.closed {
        assert forall x :: x in exited ==> x == Exited || x in s.workers;
        assert WakeAll(exited) == exited;
      }
    } else {
      WakeAllRank(s.workers, |s.workers|);
    }
  }

  lemma {:induction false} Scale(k: nat, a: nat, b: nat)
    requires a < b
    ensures Times(k, a) + k <= Times(k, b)
  {
    if a + 1 < b { Scale(k, a, b - 1); }
  }

  lemma Weighs(k: nat, a: nat, x: nat, b: nat, y: nat)
    requires (a < b && x < y + k) || (a == b && x < y)
    ensures Times(k, a) + x < Times(k, b) + y
  {
    if a < b { Scale(k, a, b); }
  }

  /** Every step lowers the measure, so on a finite tree every run ends; by
      `NobodySleepsForever` it ends with all workers gone. */
  lemma EveryStepLowersMeasure(s: System, a: Action)
    requires Scheduled(s) && Enabled(s, a)
    ensures Measure(Apply(s, a)) < Measure(s)
  {
    var t := Apply(s, a);
    match a {
    case CallNext(i) => NextProgress(s, i);
    case AddChild(i, woken) => if s.queue.closed { ReadProgress(s, a); } else { AddProgress(s, i, woken); }
    case SkipChild(_) => ReadProgress(s, a);
    case StopReading(_, _) => ReadProgress(s, a);
    case CallDone(i) => DoneProgress(s, i);
    case CallClose(_) => CloseProgress(s, a);
    case Cancel => CloseProgress(s, a);
    }
    Weighs(|s.workers| + 3, Work(t), Unrest(t), Work(s), Unrest(s));
  }

  lemma {:induction false} StepsBounded(roots: seq<Dir>, s: System, actions: seq<Action>, t: System, d: Dir)
    requires Inv(roots, s, d) && Run(s, actions, t)
    ensures |actions| + Measure(t) <= Measure(s)
    decreases |actions|
  {
    if actions != [] {
      EveryStepLowersMeasure(s, actions[0]);
      StepKeepsInv(roots, s, actions[0], d);
      StepsBounded(roots, Apply(s, actions[0]), actions[1..], t, d);
    }
  }

  /** No run is longer than the measure of its first state. */
  lemma RunsAreBounded(roots: seq<Dir>, n: nat, actions: seq<Action>, t: System)
    requires Run(Init(roots, n), actions, t)
    ensures |actions| <= Measure(Init(roots, n))
  {
    var d := Dir("", []);
    InitInv(roots, n, d);
    StepsBounded(roots, Init(roots, n), actions, t, d);
  }
}
