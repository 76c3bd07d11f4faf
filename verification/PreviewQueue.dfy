/**
 The latest-value preview queue: a channel with one slot, one producer that
 drains and refills it in three non-blocking attempts, and a consumer receiving
 between any two of them. Values are numbered in the order of submission.
 */
module PreviewQueue {
  import opened Bytes

  /** Where the producer is; a value is being submitted except in Idle. */
  datatype Producer = Idle | TrySend | Drain | SendAgain

  /** `next` is the number of the next value to submit, or of the one being
      submitted; `drained` are the values the producer took back. */
  datatype Queue = Queue(slot: Option<nat>, producer: Producer, next: nat, received: seq<nat>, drained: seq<nat>,
                         lost: seq<nat>)

  const EMPTY := Queue(None, Idle, 0, [], [], [])

  datatype Turn = Submit | Consumer

  function ProducerStep(q: Queue): Queue {
    match q.producer
    case Idle => q.(producer := TrySend)
    case TrySend =>
      if q.slot.None? then q.(slot := Some(q.next), producer := Idle, next := q.next + 1)
      else q.(producer := Drain)
    case Drain =>
      if q.slot.Some? then q.(slot := None, drained := q.drained + [q.slot.value], producer := SendAgain)
      else q.(producer := SendAgain)
    case SendAgain =>
      if q.slot.None? then q.(slot := Some(q.next), producer := Idle, next := q.next + 1)
      else q.(lost := q.lost + [q.next], producer := Idle, next := q.next + 1)
  }

  /** The consumer receives, or waits while there is nothing. */
  function ConsumerStep(q: Queue): Queue {
    if q.slot.Some? then q.(slot := None, received := q.received + [q.slot.value]) else q
  }

  function StepOf(q: Queue, turn: Turn): Queue {
    match turn
    case Submit => ProducerStep(q)
    case Consumer => ConsumerStep(q)
  }

  /** After any interleaving of producer and consumer. */
  function After(turns: seq<Turn>): Queue {
    if turns == [] then EMPTY else StepOf(After(turns[..|turns| - 1]), turns[|turns| - 1])
  }

  // ------------------------------------------------------------------
  // The invariant.

  ghost predicate Increasing(values: seq<nat>) { forall i, j :: 0 <= i < j < |values| ==> values[i] < values[j] }

  ghost predicate Below(values: seq<nat>, bound: nat) { forall i :: 0 <= i < |values| ==> values[i] < bound }

  /** Every value so far is in exactly one place. */
  function Places(q: Queue, v: nat): nat {
    multiset(q.received)[v] + multiset(q.drained)[v] + (if q.slot == Some(v) then 1 else 0)
  }

  ghost predicate Good(q: Queue) {
    && q.lost == []
    && (q.producer == SendAgain ==> q.slot.None?)
    && Increasing(q.received)
    && Below(q.received, if q.slot.Some? then q.slot.value else q.next)
    && (q.slot.Some? ==> q.slot.value + 1 == q.next)
    && (forall v: nat :: Places(q, v) == if v < q.next then 1 else 0)
    && (q.next > 0 && q.producer != SendAgain ==> Newest(q))
  }

  /** The newest value is pending or was the last one received. */
  predicate Newest(q: Queue)
    requires q.next > 0
  {
    q.slot == Some(q.next - 1) || (q.received != [] && q.received[|q.received| - 1] == q.next - 1)
  }

  lemma AppendCount(values: seq<nat>, w: nat, v: nat)
    ensures multiset(values + [w])[v] == multiset(values)[v] + if v == w then 1 else 0
  {
  }

  lemma ConsumerKeepsGood(q: Queue)
    requires Good(q)
    ensures Good(ConsumerStep(q))
  {
    if q.slot.Some? {
      var after := ConsumerStep(q);
      forall v: nat ensures Places(after, v) == Places(q, v) { AppendCount(q.received, q.slot.value, v); }
    }
  }

  lemma ProducerKeepsGood(q: Queue)
    requires Good(q)
    ensures Good(ProducerStep(q))
  {
    var after := ProducerStep(q);
    match q.producer {
      case Idle =>
        assert forall v: nat :: Places(after, v) == Places(q, v);
      case TrySend => SentKeepsGood(q);
      case Drain =>
        if q.slot.Some? {
          forall v: nat ensures Places(after, v) == Places(q, v) { AppendCount(q.drained, q.slot.value, v); }
        } else {
          assert forall v: nat :: Places(after, v) == Places(q, v);
        }
      case SendAgain => SentKeepsGood(q);
    }
  }

  lemma SentKeepsGood(q: Queue)
    requires Good(q) && (q.producer == TrySend || q.producer == SendAgain)
    ensures Good(ProducerStep(q))
  {
    var after := ProducerStep(q);
    if q.slot.None? {
      forall v: nat ensures Places(after, v) == Places(q, v) + if v == q.next then 1 else 0 {}
    } else {
      assert forall v: nat :: Places(after, v) == Places(q, v);
    }
  }

  lemma {:induction false} AlwaysGood(turns: seq<Turn>)
    ensures Good(After(turns))
  {
    if turns != [] {
      var before := After(turns[..|turns| - 1]);
      AlwaysGood(turns[..|turns| - 1]);
      if turns[|turns| - 1] == Submit { ProducerKeepsGood(before); } else { ConsumerKeepsGood(before); }
    }
  }

  // ------------------------------------------------------------------
  // What it means.

  /** The producer never loses its own value: when it sends again the slot is
      empty, so the last default branch is unreachable. */
  lemma OwnValueNeverLost(turns: seq<Turn>)
    ensures After(turns).lost == []
    ensures After(turns).producer == SendAgain ==> After(turns).slot.None?
  {
    AlwaysGood(turns);
  }

  /** The consumer sees strictly newer values, and what is pending is newer than
      all of them. */
  lemma ReceivesNewer(turns: seq<Turn>)
    ensures Increasing(After(turns).received)
    ensures After(turns).slot.Some? ==> Below(After(turns).received, After(turns).slot.value)
  {
    AlwaysGood(turns);
  }

  /** Every submitted value is received, pending or replaced by a newer one, and
      only one of these. */
  lemma NothingElseHappens(turns: seq<Turn>, v: nat)
    ensures Places(After(turns), v) == if v < After(turns).next then 1 else 0
  {
    AlwaysGood(turns);
  }

  /** Between submissions the newest value is pending or already received, and
      one receive from there brings it. */
  lemma NewestIsNext(turns: seq<Turn>)
    requires After(turns).producer == Idle && After(turns).next > 0
    ensures var q := After(turns + [Consumer]);
            q.received != [] && q.received[|q.received| - 1] == After(turns).next - 1
  {
    AlwaysGood(turns);
    assert (turns + [Consumer])[..|turns|] == turns;
  }

  /** A submission ends after at most three attempts of the producer, however the
      consumer behaves. */
  function Attempts(p: Producer): nat {
    match p
    case Idle => 0
    case SendAgain => 1
    case Drain => 2
    case TrySend => 3
  }

  lemma SubmissionEnds(q: Queue)
    requires q.producer != Idle
    ensures Attempts(ProducerStep(q).producer) < Attempts(q.producer)
    ensures ConsumerStep(q).producer == q.producer
  {
  }

  // ------------------------------------------------------------------
  // The object.

  /** The channel with what went through it. */
  class LatestValueQueue<T> {
    var pending: Option<T>
    var received: seq<T>

    constructor ()
      ensures pending == None && received == []
    {
      pending, received := None, [];
    }

    /** What the consumer may have received since. */
    twostate predicate ReceivedSince()
      reads this
    {
      (pending == old(pending) && received == old(received))
      || (old(pending).Some? && pending.None? && received == old(received) + [old(pending).value])
    }

    method ConsumerMayReceive(receives: bool)
      modifies this
      ensures ReceivedSince()
      ensures receives ==> pending.None?
    {
      if receives && pending.Some? {
        received := received + [pending.value];
        pending := None;
      }
    }

    /** Whatever the consumer does between the attempts, the submitted value is
        pending in the end, and the consumer has received at most the value that
        was pending before. */
    method SubmitValue(value: T, receives: seq<bool>)
      requires |receives| == 2
      modifies this
      ensures pending == Some(value)
      ensures received == old(received) || (old(pending).Some? && received == old(received) + [old(pending).value])
    {
      if pending.None? {
        pending := Some(value);
        return;
      }
      ConsumerMayReceive(receives[0]);
      if pending.Some? { pending := None; }
      ConsumerMayReceive(receives[1]);
      if pending.None? { pending := Some(value); }
    }
  }
}
