/**
 The two queues of unmatched batches: bounded pushes, and popping the earliest pair of equal
 heights.
 */
module Queues {
  import opened Prelude
  import opened Blocks

  datatype Limits = Limits(bytes: nat, heights: nat)

  /** Largest value of the source's byte counters. */
  const USIZE_MAX := 0xFFFF_FFFF_FFFF_FFFF

  datatype Queue<E> = Queue(items: seq<Batch<E>>, last: Option<nat>, bytes: nat)

  function EmptyQueue<E>(): Queue<E> {
    Queue([], None, 0)
  }

  function Wire<E>(s: seq<Batch<E>>): nat {
    if s == [] then 0 else s[0].wire + Wire(s[1..])
  }

  lemma {:induction false} WireConcat<E>(s: seq<Batch<E>>, t: seq<Batch<E>>)
    ensures Wire(s + t) == Wire(s) + Wire(t)
  {
    if s == [] {
      assert s + t == t;
    } else {
      assert (s + t)[1..] == s[1..] + t;
      WireConcat(s[1..], t);
    }
  }

  ghost predicate Increasing<E>(s: seq<Batch<E>>) {
    forall i, j :: 0 <= i < j < |s| ==> s[i].height < s[j].height
  }

  /** The byte counter is the sum of the queued record lengths. */
  predicate Accounted<E>(q: Queue<E>) {
    q.bytes == Wire(q.items)
  }

  /** Strictly increasing heights up to the last accepted one, within all limits. */
  ghost predicate QueueOk<E>(q: Queue<E>, limits: Limits) {
    && Accounted(q)
    && Increasing(q.items)
    && (q.items != [] ==> q.last == Some(q.items[|q.items| - 1].height))
    && q.bytes <= limits.bytes
    && |q.items| <= limits.heights
    && (q.items != [] ==> q.items[|q.items| - 1].height - q.items[0].height <= limits.heights)
  }

  datatype PushReply<E> = Accepted(queue: Queue<E>) | Stale | Refused

  /** `aged` says that the oldest batch has outlived the age limit. */
  function Push<E>(q: Queue<E>, b: Batch<E>, limits: Limits, aged: bool): PushReply<E> {
    if q.last.Some? && q.last.value >= b.height then Stale
    else if q.bytes + b.wire > USIZE_MAX then Refused
    else if q.bytes + b.wire > limits.bytes || |q.items| >= limits.heights
            || (q.items != [] && (aged || b.height - q.items[0].height > limits.heights)) then Refused
    else Accepted(Queue(q.items + [b], Some(b.height), q.bytes + b.wire))
  }

  function DropFront<E>(q: Queue<E>): (r: Queue<E>)
    requires Accounted(q) && q.items != []
    ensures Accounted(r)
  {
    q.(items := q.items[1..], bytes := q.bytes - q.items[0].wire)
  }

  lemma PushOk<E>(q: Queue<E>, b: Batch<E>, limits: Limits, aged: bool)
    requires QueueOk(q, limits) && Push(q, b, limits, aged).Accepted?
    ensures QueueOk(Push(q, b, limits, aged).queue, limits)
  {
    WireConcat(q.items, [b]);
    assert [b][1..] == [];
  }

  /** A batch above everything accepted before is taken in whenever the limits allow it, and only then. */
  lemma PushVerdict<E>(q: Queue<E>, b: Batch<E>, limits: Limits, aged: bool)
    requires Accounted(q)
    ensures var r := Push(q, b, limits, aged);
            var above := q.last.None? || b.height > q.last.value;
            var fits := && Wire(q.items) + b.wire <= limits.bytes && Wire(q.items) + b.wire <= USIZE_MAX
                        && |q.items| < limits.heights
                        && (q.items != [] ==> !aged && b.height <= q.items[0].height + limits.heights);
            && (r.Stale? <==> !above)
            && (r.Accepted? <==> above && fits)
            && (r.Accepted? ==>
                  && r.queue.items == q.items + [b] && r.queue.last == Some(b.height)
                  && r.queue.bytes == Wire(r.queue.items))
  {
    WireConcat(q.items, [b]);
    assert [b][1..] == [];
  }

  lemma DropOk<E>(q: Queue<E>, limits: Limits)
    requires QueueOk(q, limits) && q.items != []
    ensures QueueOk(DropFront(q), limits)
  {
  }

  datatype Popped<A, B> = Popped(pair: Option<(Batch<A>, Batch<B>)>, left: Queue<A>, right: Queue<B>)

  /** The earliest pair of equal heights; batches that are behind the other queue's front are dropped. */
  function PopPair<A, B>(a: Queue<A>, b: Queue<B>): (r: Popped<A, B>)
    requires Accounted(a) && Accounted(b)
    ensures Accounted(r.left) && Accounted(r.right)
    ensures r.pair.Some? ==> r.pair.value.0.height == r.pair.value.1.height
    decreases |a.items| + |b.items|
  {
    if a.items == [] || b.items == [] then Popped(None, a, b)
    else if b.items[0].height < a.items[0].height then PopPair(a, DropFront(b))
    else if b.items[0].height > a.items[0].height then PopPair(DropFront(a), b)
    else Popped(Some((a.items[0], b.items[0])), DropFront(a), DropFront(b))
  }

  lemma {:induction false} PopPairOk<A, B>(a: Queue<A>, b: Queue<B>, limits: Limits)
    requires QueueOk(a, limits) && QueueOk(b, limits)
    ensures var r := PopPair(a, b);
            && QueueOk(r.left, limits) && QueueOk(r.right, limits)
            && (r.pair.None? ==> r.left.items == [] || r.right.items == [])
            && |r.left.items| <= |a.items| && |r.right.items| <= |b.items|
            && (r.pair.Some? ==> |r.left.items| < |a.items| && |r.right.items| < |b.items|)
    decreases |a.items| + |b.items|
  {
    hide QueueOk;
    if a.items != [] && b.items != [] {
      if b.items[0].height < a.items[0].height {
        DropOk(b, limits);
        PopPairOk(a, DropFront(b), limits);
      } else if b.items[0].height > a.items[0].height {
        DropOk(a, limits);
        PopPairOk(DropFront(a), b, limits);
      } else {
        DropOk(a, limits);
        DropOk(b, limits);
      }
    }
  }

  // ----- the queue object

  class BatchQueue<E> {
    var deque: seq<Batch<E>>
    var lastTs: Option<nat>
    var bytes: nat

    ghost function Value(): Queue<E>
      reads this
    {
      Queue(deque, lastTs, bytes)
    }

    constructor ()
      ensures Value() == EmptyQueue()
    {
      deque, lastTs, bytes := [], None, 0;
    }

    /** Rejected and stale pushes change nothing. */
    method PushBatch(b: Batch<E>, limits: Limits, aged: bool) returns (accepted: bool, refused: bool)
      modifies this
      ensures var r := Push(old(Value()), b, limits, aged);
              && accepted == r.Accepted? && refused == r.Refused?
              && Value() == (if r.Accepted? then r.queue else old(Value()))
    {
      if lastTs.Some? && lastTs.value >= b.height {
        return false, false;
      }
      if bytes + b.wire > USIZE_MAX {
        return false, true;
      }
      var nextBytes := bytes + b.wire;
      if nextBytes > limits.bytes || |deque| >= limits.heights
         || (deque != [] && (aged || b.height - deque[0].height > limits.heights))
      {
        return false, true;
      }
      lastTs := Some(b.height);
      bytes := nextBytes;
      deque := deque + [b];
      return true, false;
    }

    method PopFront() returns (b: Option<Batch<E>>)
      requires Accounted(Value())
      modifies this
      ensures old(deque) == [] ==> b == None && Value() == old(Value())
      ensures old(deque) != [] ==> b == Some(old(deque)[0]) && Value() == DropFront(old(Value()))
    {
      if deque == [] {
        return None;
      }
      b := Some(deque[0]);
      bytes := bytes - deque[0].wire;
      deque := deque[1..];
    }
  }

  /** Pops from the front of either queue until the fronts meet or one queue is empty. */
  method PopCache<A, B>(statuses: BatchQueue<A>, diffs: BatchQueue<B>) returns (pair: Option<(Batch<A>, Batch<B>)>)
    requires Accounted(statuses.Value()) && Accounted(diffs.Value()) && statuses as object != diffs as object
    modifies statuses, diffs
    ensures Popped(pair, statuses.Value(), diffs.Value()) == PopPair(old(statuses.Value()), old(diffs.Value()))
  {
    while diffs.deque != [] && statuses.deque != []
      invariant Accounted(statuses.Value()) && Accounted(diffs.Value())
      invariant PopPair(statuses.Value(), diffs.Value()) == PopPair(old(statuses.Value()), old(diffs.Value()))
      decreases |statuses.deque| + |diffs.deque|
    {
      var t, s := diffs.deque[0], statuses.deque[0];
      if t.height < s.height {
        var _ := diffs.PopFront();
      } else if t.height == s.height {
        var _ := statuses.PopFront();
        var _ := diffs.PopFront();
        return Some((s, t));
      } else {
        var _ := statuses.PopFront();
      }
    }
    pair := None;
  }
}
