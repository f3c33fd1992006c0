/** Flat snapshots of a book, and rebuilding a book from one. */
module Snapshots {
  import opened Prelude
  import opened Orders
  import opened Matching
  import opened FlatBook

  datatype Snapshot = Snapshot(bids: seq<Order>, asks: seq<Order>)

  function ToSnapshot(b: Book): Snapshot {
    Snapshot(b.bids, b.asks)
  }

  /** Pop from the end while the oid occurs on both sides: untriggered trigger orders. */
  function TrimTail(s: seq<Order>, both: set<nat>): seq<Order> {
    if s != [] && s[|s| - 1].oid in both then TrimTail(s[..|s| - 1], both) else s
  }

  function RemoveTriggers(s: Snapshot): Snapshot {
    var both := OidSet(s.bids) * OidSet(s.asks);
    Snapshot(TrimTail(s.bids, both), TrimTail(s.asks, both))
  }

  /** Orders added one by one at the back of their levels. */
  function AddAll(b: Book, orders: seq<Order>): Book
    decreases |orders|
  {
    if orders == [] then b else AddAll(AddBefore(b, orders[0], None).book, orders[1..])
  }

  function FromSnapshot(s: Snapshot, ignoreTriggers: bool): Book {
    var s1 := if ignoreTriggers then RemoveTriggers(s) else s;
    AddAll(AddAll(EMPTY, s1.bids), s1.asks)
  }

  lemma {:induction false} AddAllConcat(b: Book, s: seq<Order>, t: seq<Order>)
    ensures AddAll(b, s + t) == AddAll(AddAll(b, s), t)
    decreases |s|
  {
    if s == [] {
      assert s + t == t;
    } else {
      assert (s + t)[1..] == s[1..] + t;
      AddAllConcat(AddBefore(b, s[0], None).book, s[1..], t);
    }
  }

  /** Whatever the snapshot holds, the rebuilt book is sound: sorted, uncrossed, index valid. */
  lemma {:induction false} AddAllSound(b: Book, orders: seq<Order>)
    requires Sound(b)
    ensures Sound(AddAll(b, orders))
    decreases |orders|
  {
    if orders != [] {
      hide Sound, AddBefore;
      AddBeforeSound(b, orders[0], None);
      AddAllSound(AddBefore(b, orders[0], None).book, orders[1..]);
    }
  }

  lemma FromSnapshotSound(s: Snapshot, ignoreTriggers: bool)
    ensures Sound(FromSnapshot(s, ignoreTriggers))
  {
    var s1 := if ignoreTriggers then RemoveTriggers(s) else s;
    AddAllSound(EMPTY, s1.bids);
    AddAllSound(AddAll(EMPTY, s1.bids), s1.asks);
  }

  function Positive(s: seq<Order>): (r: seq<Order>)
    ensures forall i :: 0 <= i < |r| ==> r[i].sz > 0
  {
    if s == [] then [] else (if s[0].sz > 0 then [s[0]] else []) + Positive(s[1..])
  }

  ghost predicate AllPositive(b: Book) {
    && (forall i :: 0 <= i < |b.bids| ==> b.bids[i].sz > 0)
    && (forall i :: 0 <= i < |b.asks| ==> b.asks[i].sz > 0)
  }

  lemma {:induction false} PositiveIffUnchanged(s: seq<Order>)
    ensures |Positive(s)| <= |s|
    ensures Positive(s) == s <==> forall i :: 0 <= i < |s| ==> s[i].sz > 0
    ensures Positive(s) == s <==> |Positive(s)| == |s|
  {
    if s != [] {
      PositiveIffUnchanged(s[1..]);
      assert s == [s[0]] + s[1..];
      assert (forall i :: 0 <= i < |s| ==> s[i].sz > 0) <==>
             s[0].sz > 0 && forall i :: 0 <= i < |s[1..]| ==> s[1..][i].sz > 0;
    }
  }

  /** The orders may be queued one by one behind those of `b`, on one side, without any match. */
  ghost predicate Queueable(b: Book, side: Side, orders: seq<Order>) {
    var own, other := OnSide(b, side), OnSide(b, Opposite(side));
    && Sorted(orders, side)
    && (forall i, j :: 0 <= i < |own| && 0 <= j < |orders| ==>
          !Better(side, orders[j].px, own[i].px) && own[i].oid != orders[j].oid)
    && (forall i, j :: 0 <= i < |other| && 0 <= j < |orders| ==>
          !Crosses(side, orders[j].px, other[i].px) && other[i].oid != orders[j].oid)
    && (forall i, j :: 0 <= i < j < |orders| ==> orders[i].oid != orders[j].oid)
  }

  lemma FreshToIndex(b: Book, oid: nat)
    requires WellFormed(b)
    requires forall i :: 0 <= i < |b.bids| ==> b.bids[i].oid != oid
    requires forall i :: 0 <= i < |b.asks| ==> b.asks[i].oid != oid
    ensures oid !in b.index
  {
    hide Sound;
    if oid in b.index {
      EntryRests(b, oid);
    }
  }

  lemma QueueOne(b: Book, side: Side, o: Order)
    requires WellFormed(b) && Queueable(b, side, [o])
    ensures var r := AddBefore(b, o, None).book;
            && WellFormed(r)
            && OnSide(r, side) == OnSide(b, side) + (if o.sz > 0 then [o] else [])
            && OnSide(r, Opposite(side)) == OnSide(b, Opposite(side))
  {
    hide WellFormed;
    var own, other := OnSide(b, side), OnSide(b, Opposite(side));
    assert [o][0] == o;
    FreshToIndex(b, o.oid);
    AddBeforeWellFormedIff(b, o, None);
    assert Match(other, o.side, o.px, o.sz) == MatchResult(other, [], o.sz);
    hide Match;
    assert Matched(b, o.side, o.px, o.sz) == b;
    assert BackOf(own, side, o.px) == |own|;
    hide Matched, BackOf, Find;
    assert InsertAt(own, |own|, o) == own + [o];
  }

  lemma Requeueable(b: Book, r: Book, side: Side, orders: seq<Order>)
    requires orders != [] && Queueable(b, side, orders)
    requires OnSide(r, side) == OnSide(b, side) + (if orders[0].sz > 0 then [orders[0]] else [])
    requires OnSide(r, Opposite(side)) == OnSide(b, Opposite(side))
    ensures Queueable(r, side, orders[1..])
  {
  }

  lemma FirstQueueable(b: Book, side: Side, orders: seq<Order>)
    requires orders != [] && Queueable(b, side, orders)
    ensures Queueable(b, side, [orders[0]])
  {
  }

  lemma {:induction false} QueueAll(b: Book, side: Side, orders: seq<Order>)
    requires WellFormed(b) && Queueable(b, side, orders)
    ensures var r := AddAll(b, orders);
            && WellFormed(r)
            && OnSide(r, side) == OnSide(b, side) + Positive(orders)
            && OnSide(r, Opposite(side)) == OnSide(b, Opposite(side))
    decreases |orders|
  {
    hide WellFormed, Queueable, AddBefore;
    if orders != [] {
      var r := AddBefore(b, orders[0], None).book;
      var first := if orders[0].sz > 0 then [orders[0]] else [];
      assert Positive(orders) == first + Positive(orders[1..]);
      assert AddAll(b, orders) == AddAll(r, orders[1..]);
      hide *;
      FirstQueueable(b, side, orders);
      QueueOne(b, side, orders[0]);
      Requeueable(b, r, side, orders);
      QueueAll(r, side, orders[1..]);
      assert OnSide(b, side) + Positive(orders) == OnSide(r, side) + Positive(orders[1..]);
    }
  }

  /** The sides determine the index of a well-formed book. */
  lemma IndexDetermined(b: Book, b': Book)
    requires WellFormed(b) && WellFormed(b') && b.bids == b'.bids && b.asks == b'.asks
    ensures b == b'
  {
    hide Sound, Find;
    forall oid | oid in b.index ensures oid in b'.index && b'.index[oid] == b.index[oid] {
      EntryRests(b, oid);
      IndexedAt(OnSide(b', b.index[oid].0), b.index[oid].0, b'.index, b.index[oid].1, oid);
    }
    forall oid | oid in b'.index ensures oid in b.index {
      EntryRests(b', oid);
      IndexedAt(OnSide(b, b'.index[oid].0), b'.index[oid].0, b.index, b'.index[oid].1, oid);
    }
    assert b.index.Keys == b'.index.Keys;
    hide SideIndexed;
  }

  lemma TrimTailNothing(s: seq<Order>)
    ensures TrimTail(s, {}) == s
  {
  }

  lemma AsksQueueable(b: Book, half: Book)
    requires WellFormed(b) && half.bids == Positive(b.bids) && half.asks == []
    ensures Queueable(half, Ask, b.asks)
  {
    hide WellFormed;
    OidsUniqueInBook(b);
    UncrossedAll(b);
    PositiveFrom(b.bids);
    hide Positive;
    forall i, j | 0 <= i < |half.bids| && 0 <= j < |b.asks|
      ensures half.bids[i].px < b.asks[j].px && half.bids[i].oid != b.asks[j].oid
    {
      var k :| 0 <= k < |b.bids| && b.bids[k] == half.bids[i];
    }
  }

  /** Rebuilding keeps exactly the orders of positive size, in place; triggers and matching play no part. */
  lemma RebuildKeepsPositive(b: Book)
    requires WellFormed(b)
    ensures var r := FromSnapshot(ToSnapshot(b), true);
            WellFormed(r) && r.bids == Positive(b.bids) && r.asks == Positive(b.asks)
  {
    hide WellFormed, AddAll;
    OidsUniqueInBook(b);
    assert OidSet(b.bids) * OidSet(b.asks) == {};
    TrimTailNothing(b.bids);
    TrimTailNothing(b.asks);
    UncrossedAll(b);
    EmptyWellFormed();
    QueueAll(EMPTY, Bid, b.bids);
    AsksQueueable(b, AddAll(EMPTY, b.bids));
    QueueAll(AddAll(EMPTY, b.bids), Ask, b.asks);
  }

  lemma UncrossedAll(b: Book)
    requires WellFormed(b)
    ensures forall i, j :: 0 <= i < |b.bids| && 0 <= j < |b.asks| ==> b.bids[i].px < b.asks[j].px
    ensures Sorted(b.bids, Bid) && Sorted(b.asks, Ask)
  {
  }

  lemma {:induction false} PositiveFrom(s: seq<Order>)
    ensures forall i :: 0 <= i < |Positive(s)| ==> Positive(s)[i] in s
  {
    if s != [] {
      PositiveFrom(s[1..]);
    }
  }

  /** Round trip: the book comes back, levels, queue order and index, exactly when no size is zero. */
  lemma RoundTripIff(b: Book)
    requires WellFormed(b)
    ensures FromSnapshot(ToSnapshot(b), true) == b <==> AllPositive(b)
  {
    hide WellFormed, FromSnapshot;
    RebuildKeepsPositive(b);
    PositiveIffUnchanged(b.bids);
    PositiveIffUnchanged(b.asks);
    if AllPositive(b) {
      IndexDetermined(FromSnapshot(ToSnapshot(b), true), b);
    }
  }

  // ----- positive sizes are kept

  ghost predicate PositiveSide(s: seq<Order>) {
    forall i :: 0 <= i < |s| ==> s[i].sz > 0
  }

  lemma MatchPositive(s: seq<Order>, side: Side, limit: nat, sz: nat)
    requires PositiveSide(s)
    ensures PositiveSide(Match(s, side, limit, sz).makers)
  {
    MatchShape(s, side, limit, sz);
    hide Match, Total;
  }

  lemma PlacePositive(s: seq<Order>, o: Order, before: Option<nat>)
    requires PositiveSide(s) && o.sz > 0
    ensures var p := Place(s, o, before); p.Some? ==> PositiveSide(p.value)
  {
    hide BackOf, Find;
  }

  lemma AddBeforePositive(b: Book, o: Order, before: Option<nat>)
    requires AllPositive(b)
    ensures AllPositive(AddBefore(b, o, before).book)
    ensures AddBefore(b, o, before).book.index.Keys <= b.index.Keys + {o.oid}
  {
    var other := OnSide(b, Opposite(o.side));
    MatchPositive(other, o.side, o.px, o.sz);
    hide Match, Place;
    if Leftover(b, o) > 0 {
      PlacePositive(OnSide(b, o.side), o.(sz := Leftover(b, o)), before);
    }
  }

  lemma CancelPositive(b: Book, oid: nat)
    requires AllPositive(b)
    ensures AllPositive(Cancel(b, oid).book)
  {
    hide Find;
  }

  lemma ModifySzPositive(b: Book, oid: nat, sz: nat)
    requires AllPositive(b) && sz > 0
    ensures AllPositive(ModifySz(b, oid, sz).book)
  {
    hide Find;
  }

  ghost predicate DistinctOids(s: seq<Order>) {
    forall i, j :: 0 <= i < j < |s| ==> s[i].oid != s[j].oid
  }

  lemma {:induction false} AddAllWellFormed(b: Book, orders: seq<Order>)
    requires WellFormed(b) && AllPositive(b) && DistinctOids(orders)
    requires forall i :: 0 <= i < |orders| ==> orders[i].oid !in b.index
    ensures WellFormed(AddAll(b, orders)) && AllPositive(AddAll(b, orders))
    decreases |orders|
  {
    if orders != [] {
      hide WellFormed, AllPositive, AddBefore;
      AddBeforeWellFormedIff(b, orders[0], None);
      AddBeforePositive(b, orders[0], None);
      AddAllWellFormed(AddBefore(b, orders[0], None).book, orders[1..]);
    }
  }

  /** A snapshot whose oids are distinct, once triggers are removed, rebuilds into an exact book. */
  lemma FromSnapshotWellFormed(s: Snapshot)
    requires var s1 := RemoveTriggers(s); DistinctOids(s1.bids + s1.asks)
    ensures var b := FromSnapshot(s, true); WellFormed(b) && AllPositive(b)
  {
    var s1 := RemoveTriggers(s);
    EmptyWellFormed();
    AddAllConcat(EMPTY, s1.bids, s1.asks);
    hide WellFormed, AddAll, RemoveTriggers;
    AddAllWellFormed(EMPTY, s1.bids + s1.asks);
  }
}
