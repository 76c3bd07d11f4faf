/**
 The work queue that parallel directory readers share, and its termination
 detection: a counter of unfinished directories, a condition variable for idle
 workers, and a closed flag for cancellation and failure.
 */
module DirectoryQueue {
  import opened Bytes

  /** A directory together with the subdirectories its listing will show. */
  datatype Dir = Dir(path: string, subdirs: seq<Dir>)

  datatype Queue = Queue(dirs: seq<Dir>, pending: nat, closed: bool)

  /** One pass through the body of `next`: wait, stop, or take a directory. */
  datatype Outcome = Sleep | Stop | Take(dir: Dir)

  /** What an operation does to the waiters of the condition variable. */
  datatype Wake = Nobody | OneWaiter | Everybody

  function NewQueue(roots: seq<Dir>): Queue { Queue(roots, |roots|, false) }

  function Added(q: Queue, dir: Dir): Queue {
    if q.closed then q else q.(pending := q.pending + 1, dirs := q.dirs + [dir])
  }

  function NextOutcome(q: Queue): Outcome {
    if q.closed || q.pending == 0 then Stop
    else if |q.dirs| == 0 then Sleep
    else Take(q.dirs[|q.dirs| - 1])
  }

  function Taken(q: Queue): Queue
    requires |q.dirs| > 0
  {
    q.(dirs := q.dirs[..|q.dirs| - 1])
  }

  function Finished(q: Queue): Queue { if q.pending > 0 then q.(pending := q.pending - 1) else q }

  function Closed(q: Queue): Queue { q.(closed := true) }

  /** The queue itself; each method is one critical section under its mutex. */
  class SharedQueue {
    var dirs: seq<Dir>
    var pending: nat
    var closed: bool

    function View(): Queue
      reads this
    {
      Queue(dirs, pending, closed)
    }

    constructor (roots: seq<Dir>)
      ensures View() == NewQueue(roots)
    {
      dirs, pending, closed := roots, |roots|, false;
    }

    method Add(dir: Dir) returns (accepted: bool, wake: Wake)
      modifies this
      ensures View() == Added(old(View()), dir)
      ensures accepted == !old(closed) && wake == if accepted then OneWaiter else Nobody
    {
      if closed { return false, Nobody; }
      pending := pending + 1;
      dirs := dirs + [dir];
      return true, OneWaiter;
    }

    method TryNext() returns (outcome: Outcome)
      modifies this
      ensures outcome == NextOutcome(old(View()))
      ensures View() == if outcome.Take? then Taken(old(View())) else old(View())
    {
      if |dirs| == 0 && pending > 0 && !closed { return Sleep; }
      if closed || pending == 0 { return Stop; }
      outcome := Take(dirs[|dirs| - 1]);
      dirs := dirs[..|dirs| - 1];
    }

    method Done() returns (wake: Wake)
      modifies this
      ensures View() == Finished(old(View()))
      ensures wake == if pending == 0 then Everybody else Nobody
    {
      if pending > 0 { pending := pending - 1; }
      wake := if pending == 0 then Everybody else Nobody;
    }

    method Close() returns (wake: Wake)
      modifies this
      ensures View() == Closed(old(View())) && wake == Everybody
    {
      closed := true;
      wake := Everybody;
    }
  }

  // ------------------------------------------------------------------
  // Any number of workers sharing the queue.

  datatype Worker =
    | Ready                           // about to run (or rerun) the body of `next`
    | Asleep                          // in cond.Wait
    | Reading(dir: Dir, left: seq<Dir>)
    | Finishing(dir: Dir, failed: bool)
    | Failing                         // between `done` and closing the queue
    | Exited

  datatype System = System(
    queue: Queue,
    workers: seq<Worker>,
    handed: multiset<Dir>,    // directories `next` has returned
    added: multiset<Dir>,     // roots and accepted directories
    finished: multiset<Dir>,  // directories `done` was called for
    skipped: seq<Dir>)        // the subtrees readers passed over

  datatype Action =
    | CallNext(i: nat)
    | AddChild(i: nat, woken: Option<nat>)  // `woken` is the sleeper the signal reaches
    | SkipChild(i: nat)
    | StopReading(i: nat, failed: bool)
    | CallDone(i: nat)
    | CallClose(i: nat)
    | Cancel

  function Init(roots: seq<Dir>, n: nat): System {
    System(NewQueue(roots), seq(n, _ => Ready), multiset{}, multiset(roots), multiset{}, [])
  }

  function WakeAll(ws: seq<Worker>): seq<Worker> {
    seq(|ws|, i requires 0 <= i < |ws| => if ws[i].Asleep? then Ready else ws[i])
  }

  /** How often `d` occurs at or below one of these directories. */
  function Occurs(dirs: seq<Dir>, d: Dir): nat {
    if dirs == [] then 0
    else
      Occurs(dirs[..|dirs| - 1], d) + (if dirs[|dirs| - 1] == d then 1 else 0) + Occurs(dirs[|dirs| - 1].subdirs, d)
  }

  predicate SomeAsleep(ws: seq<Worker>) { Asleep in ws }

  predicate Enabled(s: System, a: Action) {
    match a
    case CallNext(i) => i < |s.workers| && s.workers[i].Ready?
    case AddChild(i, woken) =>
      && i < |s.workers| && s.workers[i].Reading? && s.workers[i].left != []
      && (if !s.queue.closed && SomeAsleep(s.workers)
          then woken.Some? && woken.value < |s.workers| && s.workers[woken.value].Asleep?
          else woken.None?)
    case SkipChild(i) => i < |s.workers| && s.workers[i].Reading? && s.workers[i].left != []
    case StopReading(i, _) => i < |s.workers| && s.workers[i].Reading?
    case CallDone(i) => i < |s.workers| && s.workers[i].Finishing?
    case CallClose(i) => i < |s.workers| && s.workers[i].Failing?
    case Cancel => !s.queue.closed
  }

  function Apply(s: System, a: Action): System
    requires Enabled(s, a)
  {
    var q, ws := s.queue, s.workers;
    match a
    case CallNext(i) =>
      (match NextOutcome(q)
       case Sleep => s.(workers := ws[i := Asleep])
       case Stop => s.(workers := ws[i := Exited])
       case Take(dir) =>
         s.(queue := Taken(q), workers := ws[i := Reading(dir, dir.subdirs)], handed := s.handed + multiset{dir}))
    case AddChild(i, woken) =>
      var child, rest := ws[i].left[0], ws[i].left[1..];
      if q.closed then
        s.(workers := ws[i := Finishing(ws[i].dir, true)], skipped := s.skipped + ws[i].left)
      else
        var reading := ws[i := Reading(ws[i].dir, rest)];
        s.(queue := Added(q, child), added := s.added + multiset{child},
           workers := if woken.Some? then reading[woken.value := Ready] else reading)
    case SkipChild(i) =>
      s.(workers := ws[i := Reading(ws[i].dir, ws[i].left[1..])], skipped := s.skipped + [ws[i].left[0]])
    case StopReading(i, failed) =>
      s.(workers := ws[i := Finishing(ws[i].dir, failed)], skipped := s.skipped + ws[i].left)
    case CallDone(i) =>
      var after := ws[i := if ws[i].failed then Failing else Ready];
      s.(queue := Finished(q), finished := s.finished + multiset{ws[i].dir},
         workers := if Finished(q).pending == 0 then WakeAll(after) else after)
    case CallClose(i) => s.(queue := Closed(q), workers := WakeAll(ws[i := Exited]))
    case Cancel => s.(queue := Closed(q), workers := WakeAll(ws))
  }
}
