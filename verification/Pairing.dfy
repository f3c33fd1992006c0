/**
 Pairing the two streams by height. A machine is the two queues together with everything accepted
 since the last fence and every pair popped. Batches may pile up in both queues while no book is
 loaded; however they arrive and whenever they are popped, the pairs are the ordered intersection
 of the accepted heights, and a dropped batch could never have been paired.
 */
module Pairing {
  import opened Prelude
  import opened Blocks
  import opened Queues

  type Pairs = seq<(Batch<Status>, Batch<Diff>)>

  /** out lists exactly the pairs of equal height, in order of height. */
  ghost predicate Meets(s: seq<Batch<Status>>, t: seq<Batch<Diff>>, out: Pairs) {
    && (forall i, j :: 0 <= i < j < |out| ==> out[i].0.height < out[j].0.height)
    && (forall i :: 0 <= i < |out| ==> out[i].0 in s && out[i].1 in t && out[i].0.height == out[i].1.height)
    && (forall i, j :: 0 <= i < |s| && 0 <= j < |t| && s[i].height == t[j].height ==> (s[i], t[j]) in out)
  }

  datatype Machine = Machine(a: Queue<Status>, b: Queue<Diff>, s: seq<Batch<Status>>, t: seq<Batch<Diff>>, out: Pairs)

  // ----- the invariant

  /** The queue holds the end of what was accepted. */
  ghost predicate Tail<E>(seen: seq<Batch<E>>, q: Queue<E>) {
    && Accounted(q) && Increasing(seen)
    && |q.items| <= |seen| && q.items == seen[|seen| - |q.items|..]
    && q.last == (if seen == [] then None else Some(seen[|seen| - 1].height))
  }

  /** The first n batches are not above the other stream's latest, and below everything that waits there. */
  ghost predicate Behind<A, B>(seen: seq<Batch<A>>, n: nat, other: seq<Batch<B>>, waiting: seq<Batch<B>>) {
    && n <= |seen| && (n > 0 ==> other != [])
    && forall i :: 0 <= i < n ==>
         && seen[i].height <= other[|other| - 1].height
         && (waiting != [] ==> seen[i].height < waiting[0].height)
  }

  /** Popped pairs come from the streams, in order, and are below everything that waits. */
  ghost predicate Popped(m: Machine) {
    && (forall i, j :: 0 <= i < j < |m.out| ==> m.out[i].0.height < m.out[j].0.height)
    && (forall i :: 0 <= i < |m.out| ==>
          m.out[i].0 in m.s && m.out[i].1 in m.t && m.out[i].0.height == m.out[i].1.height)
    && (forall i :: 0 <= i < |m.out| ==>
          && (m.a.items != [] ==> m.out[i].0.height < m.a.items[0].height)
          && (m.b.items != [] ==> m.out[i].0.height < m.b.items[0].height))
  }

  /** Equal heights have been popped as a pair, or both still wait. */
  ghost predicate Complete(m: Machine) {
    forall i, j :: 0 <= i < |m.s| && 0 <= j < |m.t| && m.s[i].height == m.t[j].height ==>
      (|m.s| - |m.a.items| <= i && |m.t| - |m.b.items| <= j) || (m.s[i], m.t[j]) in m.out
  }

  ghost predicate PairInv(m: Machine) {
    && Tail(m.s, m.a) && Tail(m.t, m.b)
    && Behind(m.s, |m.s| - |m.a.items|, m.t, m.b.items) && Behind(m.t, |m.t| - |m.b.items|, m.s, m.a.items)
    && Popped(m) && Complete(m)
  }

  lemma StartInv(m: Machine)
    requires m.s == [] && m.t == [] && m.out == []
    requires m.a.items == [] && m.b.items == [] && m.a.last == None && m.b.last == None && m.a.bytes == 0
    requires m.b.bytes == 0
    ensures PairInv(m)
  {
    hide Tail;
    EmptyTail(m.a);
    EmptyTail(m.b);
  }

  lemma EmptyTail<E>(q: Queue<E>)
    requires q.items == [] && q.last == None && q.bytes == 0
    ensures Tail([], q)
  {
  }

  /** Once a queue is empty, the popped pairs are exactly the ordered intersection. */
  lemma EmptyMeets(m: Machine)
    requires PairInv(m) && (m.a.items == [] || m.b.items == [])
    ensures Meets(m.s, m.t, m.out)
  {
    hide Behind, Tail;
    TailLength(m.s, m.a);
    TailLength(m.t, m.b);
  }

  lemma TailLength<E>(seen: seq<Batch<E>>, q: Queue<E>)
    requires Tail(seen, q)
    ensures |q.items| <= |seen| && Accounted(q)
  {
    hide Accounted;
  }

  // ----- arrivals

  function WithItem<E>(q: Queue<E>, x: Batch<E>): Queue<E> {
    Queue(q.items + [x], Some(x.height), q.bytes + x.wire)
  }

  lemma TailPush<E>(seen: seq<Batch<E>>, q: Queue<E>, x: Batch<E>)
    requires Tail(seen, q) && (q.last.Some? ==> q.last.value < x.height)
    ensures Tail(seen + [x], WithItem(q, x))
    ensures forall i :: 0 <= i < |seen| ==> seen[i].height < x.height
  {
    WireConcat(q.items, [x]);
    assert [x][1..] == [];
  }

  lemma BehindMore<A, B>(seen: seq<Batch<A>>, n: nat, x: Batch<A>, other: seq<Batch<B>>, waiting: seq<Batch<B>>)
    requires Behind(seen, n, other, waiting)
    ensures Behind(seen + [x], n, other, waiting)
  {
    assert forall i :: 0 <= i < n ==> (seen + [x])[i] == seen[i];
  }

  lemma BehindNews<A, B>(seen: seq<Batch<A>>, n: nat, other: seq<Batch<B>>, waiting: seq<Batch<B>>, x: Batch<B>)
    requires Behind(seen, n, other, waiting) && forall i :: 0 <= i < |other| ==> other[i].height < x.height
    ensures Behind(seen, n, other + [x], waiting + [x])
    ensures forall i :: 0 <= i < n ==> seen[i].height < x.height
  {
    var next := waiting + [x];
    assert (other + [x])[|other|] == x && next[0] == if waiting == [] then x else waiting[0];
    assert n > 0 ==> other[|other| - 1].height < x.height;
  }

  function PushLeft(m: Machine, x: Batch<Status>): Machine {
    m.(a := WithItem(m.a, x), s := m.s + [x])
  }

  function PushRight(m: Machine, x: Batch<Diff>): Machine {
    m.(b := WithItem(m.b, x), t := m.t + [x])
  }

  lemma PushLeftPopped(m: Machine, x: Batch<Status>)
    requires Popped(m) && forall i :: 0 <= i < |m.s| ==> m.s[i].height < x.height
    ensures Popped(PushLeft(m, x))
  {
    var m' := PushLeft(m, x);
    assert forall y :: y in m.s ==> y in m'.s && y.height < x.height;
  }

  /** A newcomer has no partner among those that have left. */
  lemma PushLeftComplete(m: Machine, x: Batch<Status>)
    requires Complete(m) && |m.a.items| <= |m.s| && |m.b.items| <= |m.t|
    requires forall i :: 0 <= i < |m.t| - |m.b.items| ==> m.t[i].height < x.height
    ensures Complete(PushLeft(m, x))
  {
  }

  lemma PushLeftKeeps(m: Machine, x: Batch<Status>)
    requires PairInv(m) && (m.a.last.Some? ==> m.a.last.value < x.height)
    ensures PairInv(PushLeft(m, x))
  {
    hide Tail, Behind, Increasing, Popped, Complete;
    TailLength(m.s, m.a);
    TailLength(m.t, m.b);
    TailPush(m.s, m.a, x);
    BehindMore(m.s, |m.s| - |m.a.items|, x, m.t, m.b.items);
    BehindNews(m.t, |m.t| - |m.b.items|, m.s, m.a.items, x);
    PushLeftPopped(m, x);
    PushLeftComplete(m, x);
  }

  lemma PushRightPopped(m: Machine, x: Batch<Diff>)
    requires Popped(m) && forall i :: 0 <= i < |m.t| ==> m.t[i].height < x.height
    ensures Popped(PushRight(m, x))
  {
    var m' := PushRight(m, x);
    assert forall y :: y in m.t ==> y in m'.t && y.height < x.height;
  }

  /** A newcomer has no partner among those that have left. */
  lemma PushRightComplete(m: Machine, x: Batch<Diff>)
    requires Complete(m) && |m.a.items| <= |m.s| && |m.b.items| <= |m.t|
    requires forall i :: 0 <= i < |m.s| - |m.a.items| ==> m.s[i].height < x.height
    ensures Complete(PushRight(m, x))
  {
  }

  lemma PushRightKeeps(m: Machine, x: Batch<Diff>)
    requires PairInv(m) && (m.b.last.Some? ==> m.b.last.value < x.height)
    ensures PairInv(PushRight(m, x))
  {
    hide Tail, Behind, Increasing, Popped, Complete;
    TailLength(m.s, m.a);
    TailLength(m.t, m.b);
    TailPush(m.t, m.b, x);
    BehindMore(m.t, |m.t| - |m.b.items|, x, m.s, m.a.items);
    BehindNews(m.s, |m.s| - |m.a.items|, m.t, m.b.items, x);
    PushRightPopped(m, x);
    PushRightComplete(m, x);
  }

  // ----- the front of a queue

  lemma TailDrop<E>(seen: seq<Batch<E>>, q: Queue<E>)
    requires Tail(seen, q) && q.items != []
    ensures Accounted(q) && Tail(seen, DropFront(q))
    ensures var g := |seen| - |q.items|;
            && 0 <= g < |seen| && seen[g] == q.items[0] && q.items[0] in seen
               && seen[g].height <= seen[|seen| - 1].height
            && (forall i :: g < i < |seen| ==> q.items[0].height < seen[i].height)
            && (forall i :: 0 <= i < g ==> seen[i].height < q.items[0].height)
            && (|q.items| > 1 ==> q.items[0].height < q.items[1].height)
  {
    hide Accounted, Increasing;
    var g := |seen| - |q.items|;
    assert seen[g] == q.items[0];
    assert seen[g + 1..] == q.items[1..];
    assert |q.items| > 1 ==> q.items[1] == seen[g + 1];
    IncreasingAt(seen, g);
  }

  lemma IncreasingAt<E>(seen: seq<Batch<E>>, g: nat)
    requires Increasing(seen) && g < |seen|
    ensures seen[g].height <= seen[|seen| - 1].height
    ensures forall i :: g < i < |seen| ==> seen[g].height < seen[i].height
    ensures forall i :: 0 <= i < g ==> seen[i].height < seen[g].height
  {
  }

  /** One more batch has left. */
  lemma BehindDrop<A, B>(seen: seq<Batch<A>>, n: nat, other: seq<Batch<B>>, waiting: seq<Batch<B>>)
    requires Behind(seen, n, other, waiting) && n < |seen| && other != []
    requires seen[n].height <= other[|other| - 1].height && (waiting != [] ==> seen[n].height < waiting[0].height)
    ensures Behind(seen, n + 1, other, waiting)
  {
  }

  lemma BehindWaitLess<A, B>(seen: seq<Batch<A>>, n: nat, other: seq<Batch<B>>, waiting: seq<Batch<B>>)
    requires Behind(seen, n, other, waiting) && waiting != []
    requires (|waiting| > 1 ==> waiting[0].height < waiting[1].height)
    ensures Behind(seen, n, other, waiting[1..])
    ensures forall i :: 0 <= i < n ==> seen[i].height < waiting[0].height
  {
    var w := waiting[1..];
    assert w != [] ==> w[0] == waiting[1];
  }

  function DropLeft(m: Machine): Machine
    requires m.a.items != [] && Accounted(m.a)
  {
    m.(a := DropFront(m.a))
  }

  function DropRight(m: Machine): Machine
    requires m.b.items != [] && Accounted(m.b)
  {
    m.(b := DropFront(m.b))
  }

  /** A front that is behind the other front has no partner. */
  lemma DropRightKeeps(m: Machine)
    requires PairInv(m) && m.a.items != [] && m.b.items != [] && m.b.items[0].height < m.a.items[0].height
    ensures Accounted(m.b) && PairInv(DropRight(m))
  {
    hide Tail, Behind;
    TailDrop(m.s, m.a);
    TailDrop(m.t, m.b);
    BehindDrop(m.t, |m.t| - |m.b.items|, m.s, m.a.items);
    BehindWaitLess(m.s, |m.s| - |m.a.items|, m.t, m.b.items);
  }

  lemma DropLeftKeeps(m: Machine)
    requires PairInv(m) && m.a.items != [] && m.b.items != [] && m.a.items[0].height < m.b.items[0].height
    ensures Accounted(m.a) && PairInv(DropLeft(m))
  {
    hide Tail, Behind;
    TailDrop(m.s, m.a);
    TailDrop(m.t, m.b);
    BehindDrop(m.s, |m.s| - |m.a.items|, m.t, m.b.items);
    BehindWaitLess(m.t, |m.t| - |m.b.items|, m.s, m.a.items);
  }

  function PopBoth(m: Machine): Machine
    requires m.a.items != [] && m.b.items != [] && Accounted(m.a) && Accounted(m.b)
  {
    Machine(DropFront(m.a), DropFront(m.b), m.s, m.t, m.out + [(m.a.items[0], m.b.items[0])])
  }

  lemma PopBothKeeps(m: Machine)
    requires PairInv(m) && m.a.items != [] && m.b.items != [] && m.b.items[0].height == m.a.items[0].height
    ensures Accounted(m.a) && Accounted(m.b) && PairInv(PopBoth(m))
  {
    hide Tail, Behind, Popped, Complete;
    TailDrop(m.s, m.a);
    TailDrop(m.t, m.b);
    var gs, gt := |m.s| - |m.a.items|, |m.t| - |m.b.items|;
    BehindWaitLess(m.s, gs, m.t, m.b.items);
    BehindWaitLess(m.t, gt, m.s, m.a.items);
    BehindDrop(m.s, gs, m.t, m.b.items[1..]);
    BehindDrop(m.t, gt, m.s, m.a.items[1..]);
    PoppedOne(m);
    CompleteOne(m);
  }

  lemma PoppedOne(m: Machine)
    requires Tail(m.s, m.a) && Tail(m.t, m.b) && Popped(m) && m.a.items != [] && m.b.items != []
    requires m.b.items[0].height == m.a.items[0].height && Accounted(m.a) && Accounted(m.b)
    ensures Popped(PopBoth(m))
  {
    hide Tail;
    TailDrop(m.s, m.a);
    TailDrop(m.t, m.b);
    var m' := PopBoth(m);
    assert m'.out[|m.out|] == (m.a.items[0], m.b.items[0]);
    assert m.a.items[0] in m.s && m.b.items[0] in m.t;
  }

  lemma CompleteOne(m: Machine)
    requires Tail(m.s, m.a) && Tail(m.t, m.b) && Complete(m) && m.a.items != [] && m.b.items != []
    requires m.b.items[0].height == m.a.items[0].height && Accounted(m.a) && Accounted(m.b)
    ensures Complete(PopBoth(m))
  {
    hide Tail;
    TailDrop(m.s, m.a);
    TailDrop(m.t, m.b);
    var m' := PopBoth(m);
    assert m'.out[|m.out|] == (m.a.items[0], m.b.items[0]);
    assert forall p :: p in m.out ==> p in m'.out;
  }

  // ----- popping a pair

  /** The machine after popping the earliest pair, if there is one. */
  function PopOne(m: Machine): Machine
    requires Accounted(m.a) && Accounted(m.b)
  {
    var p := PopPair(m.a, m.b);
    Machine(p.left, p.right, m.s, m.t, m.out + (if p.pair.Some? then [p.pair.value] else []))
  }

  lemma {:induction false} PopOneKeeps(m: Machine)
    requires PairInv(m)
    ensures Accounted(m.a) && Accounted(m.b) && PairInv(PopOne(m))
    ensures PopPair(m.a, m.b).pair.None? ==> PopOne(m).a.items == [] || PopOne(m).b.items == []
    decreases |m.a.items| + |m.b.items|
  {
    hide PairInv, Accounted;
    InvAccounted(m);
    if m.a.items == [] || m.b.items == [] {
      assert m.out + [] == m.out;
    } else if m.b.items[0].height < m.a.items[0].height {
      DropRightKeeps(m);
      PopOneKeeps(DropRight(m));
    } else if m.b.items[0].height > m.a.items[0].height {
      DropLeftKeeps(m);
      PopOneKeeps(DropLeft(m));
    } else {
      PopBothKeeps(m);
    }
  }

  lemma InvAccounted(m: Machine)
    requires PairInv(m)
    ensures Accounted(m.a) && Accounted(m.b)
  {
    hide Behind, Popped, Complete;
    TailLength(m.s, m.a);
    TailLength(m.t, m.b);
  }

  // ----- consequences

  /** A batch of either stream that has left its queue could not be paired with anything that arrives later. */
  lemma DroppedNeverPairs(m: Machine, x: Batch<Status>, y: Batch<Diff>)
    requires PairInv(m)
    ensures (m.b.last.Some? ==> m.b.last.value < y.height) ==>
              forall i :: 0 <= i < |m.s| - |m.a.items| ==> m.s[i].height < y.height
    ensures (m.a.last.Some? ==> m.a.last.value < x.height) ==>
              forall j :: 0 <= j < |m.t| - |m.b.items| ==> m.t[j].height < x.height
  {
    hide Popped, Complete;
  }

  /**
   Two machines that accepted the same batches, in whatever order and with whatever pops, have
   popped the same pairs.
   */
  lemma InterleavingIrrelevant(m: Machine, n: Machine)
    requires PairInv(m) && PairInv(n) && m.s == n.s && m.t == n.t
    requires (m.a.items == [] || m.b.items == []) && (n.a.items == [] || n.b.items == [])
    ensures m.out == n.out && Meets(m.s, m.t, m.out)
  {
    EmptyMeets(m);
    EmptyMeets(n);
    TailIncreasing(m.s, m.a);
    TailIncreasing(m.t, m.b);
    hide PairInv, Meets;
    MeetsUnique(m.s, m.t, m.out, n.out);
  }

  lemma TailIncreasing<E>(seen: seq<Batch<E>>, q: Queue<E>)
    requires Tail(seen, q)
    ensures Increasing(seen)
  {
  }

  lemma {:induction false} MeetsUnique(s: seq<Batch<Status>>, t: seq<Batch<Diff>>, out: Pairs, out': Pairs)
    requires Meets(s, t, out) && Meets(s, t, out') && Increasing(s) && Increasing(t)
    ensures out == out'
  {
    forall i | 0 <= i < |out| ensures out[i] in out' {
      MeetsIncluded(s, t, out, out', i);
    }
    forall i | 0 <= i < |out'| ensures out'[i] in out {
      MeetsIncluded(s, t, out', out, i);
    }
    SameSorted(out, out');
  }

  lemma MeetsIncluded(s: seq<Batch<Status>>, t: seq<Batch<Diff>>, out: Pairs, out': Pairs, i: nat)
    requires Meets(s, t, out) && Meets(s, t, out') && i < |out|
    ensures out[i] in out'
  {
    assert out[i].0 in s && out[i].1 in t;
    var j :| 0 <= j < |s| && s[j] == out[i].0;
    var k :| 0 <= k < |t| && t[k] == out[i].1;
    assert (s[j], t[k]) in out';
  }

  ghost predicate SortedPairs(out: Pairs) {
    forall i, j :: 0 <= i < j < |out| ==> out[i].0.height < out[j].0.height
  }

  lemma {:induction false} SameSorted(x: Pairs, y: Pairs)
    requires SortedPairs(x) && SortedPairs(y)
    requires forall i :: 0 <= i < |x| ==> x[i] in y
    requires forall i :: 0 <= i < |y| ==> y[i] in x
    ensures x == y
    decreases |x|
  {
    hide SortedPairs;
    FirstIn(x);
    FirstIn(y);
    if x != [] && y != [] {
      SameFirstPair(x, y);
      SortedTail(x);
      SortedTail(y);
      TailPairsIn(x, y);
      TailPairsIn(y, x);
      SameSorted(x[1..], y[1..]);
      assert x == [x[0]] + x[1..] && y == [y[0]] + y[1..];
    }
  }

  lemma SortedTail(x: Pairs)
    requires SortedPairs(x) && x != []
    ensures SortedPairs(x[1..])
  {
  }

  lemma SameFirstPair(x: Pairs, y: Pairs)
    requires SortedPairs(x) && SortedPairs(y) && x != [] && y != [] && x[0] in y && y[0] in x
    ensures x[0] == y[0]
  {
    var i :| 0 <= i < |y| && y[i] == x[0];
    var j :| 0 <= j < |x| && x[j] == y[0];
    FirstLowest(y, i);
    FirstLowest(x, j);
  }

  lemma FirstLowest(x: Pairs, i: nat)
    requires SortedPairs(x) && i < |x|
    ensures x[0].0.height <= x[i].0.height && (x[0].0.height == x[i].0.height ==> x[0] == x[i])
  {
  }

  lemma TailPairIn(x: Pairs, y: Pairs, i: nat)
    requires SortedPairs(x) && y != [] && 1 <= i < |x| && x[0] == y[0] && x[i] in y
    ensures x[i] in y[1..]
  {
    var k :| 0 <= k < |y| && y[k] == x[i];
    assert x[0].0.height < x[i].0.height;
    assert y[1..][k - 1] == x[i];
  }

  lemma TailPairsIn(x: Pairs, y: Pairs)
    requires SortedPairs(x) && SortedPairs(y) && x != [] && y != [] && x[0] == y[0]
    requires forall i :: 0 <= i < |x| ==> x[i] in y
    ensures forall k :: 0 <= k < |x[1..]| ==> x[1..][k] in y[1..]
  {
    hide SortedPairs;
    forall k | 0 <= k < |x[1..]| ensures x[1..][k] in y[1..] {
      TailPairIn(x, y, k + 1);
    }
  }
}
