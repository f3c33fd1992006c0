/**
 What each operation leaves in the book, order by order and in plain prices: where an order comes
 to rest, what a cancel takes out, what a resize changes, and when each of them is refused.
 */
module BookOutcomes {
  import opened Prelude
  import opened Orders
  import opened Matching
  import opened FlatBook

  // ----- priority in prices

  /** Bids never rise from one order to the next, asks never fall, and every bid is below every ask. */
  lemma SoundInPrices(b: Book)
    requires Sound(b)
    ensures forall i, j :: 0 <= i < j < |b.bids| ==> b.bids[i].px >= b.bids[j].px
    ensures forall i, j :: 0 <= i < j < |b.asks| ==> b.asks[i].px <= b.asks[j].px
    ensures forall i, j :: 0 <= i < |b.bids| && 0 <= j < |b.asks| ==> b.bids[i].px < b.asks[j].px
    ensures forall i :: 0 <= i < |b.bids| ==> b.bids[i].side == Bid
    ensures forall i :: 0 <= i < |b.asks| ==> b.asks[i].side == Ask
  {
    hide LevelUnique, IndexPoints;
  }

  // ----- additions

  /**
   The side with o put in at position i, directly in front of the named order, or else behind all
   orders of its price or a better one and ahead of all worse ones.
   */
  ghost predicate RestsAt(own: seq<Order>, own': seq<Order>, o: Order, before: Option<nat>, i: nat) {
    && i <= |own| && |own'| == |own| + 1 && own'[i] == o
    && (forall j :: 0 <= j < i ==> own'[j] == own[j])
    && (forall j :: i <= j < |own| ==> own'[j + 1] == own[j])
    && (before.Some? ==> i < |own| && own[i].oid == before.value && own[i].px == o.px)
    && (before.None? && o.side == Bid ==>
          (forall j :: 0 <= j < i ==> own[j].px >= o.px) && (forall j :: i <= j < |own| ==> own[j].px < o.px))
    && (before.None? && o.side == Ask ==>
          (forall j :: 0 <= j < i ==> own[j].px <= o.px) && (forall j :: i <= j < |own| ==> own[j].px > o.px))
  }

  /** No order is named, or one that rests at this price. */
  ghost predicate NamesResting(own: seq<Order>, px: nat, before: Option<nat>) {
    before.Some? ==> exists j :: 0 <= j < |own| && own[j].px == px && own[j].oid == before.value
  }

  ghost predicate ComesToRest(own: seq<Order>, own': seq<Order>, o: Order, before: Option<nat>) {
    exists i :: RestsAt(own, own', o, before, i)
  }

  /** How much the other side has lost. */
  function Lost(b: Book, b': Book, side: Side): int {
    Total(OnSide(b, Opposite(side))) - Total(OnSide(b', Opposite(side)))
  }

  lemma Leaves(b: Book, o: Order)
    ensures Leftover(b, o) == o.sz - Lost(b, Matched(b, o.side, o.px, o.sz), o.side)
    ensures OnSide(Matched(b, o.side, o.px, o.sz), o.side) == OnSide(b, o.side)
  {
    MatchConserves(OnSide(b, Opposite(o.side)), o.side, o.px, o.sz);
    hide Match, Total;
  }

  lemma PlacedAt(own: seq<Order>, o: Order, before: Option<nat>, side: Side)
    requires Sorted(own, side) && o.side == side && !Rests(own, o.px, o.oid)
    ensures var p := Place(own, o, before);
            && (p.Some? <==> NamesResting(own, o.px, before))
            && (p.Some? ==> ComesToRest(own, p.value, o, before))
  {
    if before.None? {
      var i := BackOf(own, side, o.px);
      hide Find, BackOf;
      assert RestsAt(own, InsertAt(own, i, o), o, before, i);
    } else {
      var i := Find(own, o.px, before.value);
      hide Find, BackOf;
      if i < |own| {
        assert RestsAt(own, InsertAt(own, i, o), o, before, i);
      }
    }
  }

  lemma PlaceOutcome(b: Book, o: Order, before: Option<nat>)
    requires WellFormed(b) && o.oid !in b.index
    ensures var r, own := PlaceOrder(b, o, before), OnSide(b, o.side);
            && OnSide(r.book, Opposite(o.side)) == OnSide(b, Opposite(o.side))
            && (r.ok <==> NamesResting(own, o.px, before))
            && (r.ok ==> r.book.index == b.index[o.oid := (o.side, o.px)])
            && (r.ok ==> ComesToRest(own, OnSide(r.book, o.side), o, before))
            && (!r.ok ==> r.book == b)
  {
    NotIndexedNotResting(b, o);
    hide WellFormed, Place, ComesToRest, NamesResting;
    PlacedAt(OnSide(b, o.side), o, before, o.side);
  }

  lemma NotIndexedNotResting(b: Book, o: Order)
    requires WellFormed(b) && o.oid !in b.index
    ensures Sorted(OnSide(b, o.side), o.side) && !Rests(OnSide(b, o.side), o.px, o.oid)
  {
  }

  /**
   Adding an order under a new oid: what the other side loses comes off its size, and the rest
   comes to rest at its own price and place under its own index entry. Nothing else on its own
   side changes. It is refused exactly when something is left and the named order does not rest at
   its price, and then only the match remains.
   */
  lemma AdditionOutcome(b: Book, o: Order, before: Option<nat>)
    requires WellFormed(b) && o.oid !in b.index
    ensures var r, own := AddBefore(b, o, before), OnSide(b, o.side);
            var own', lost := OnSide(r.book, o.side), Lost(b, r.book, o.side);
            && 0 <= lost <= o.sz
            && (r.ok <==> lost == o.sz || NamesResting(own, o.px, before))
            && (r.ok && lost < o.sz ==>
                  && ComesToRest(own, own', o.(sz := o.sz - lost), before)
                  && o.oid in r.book.index && r.book.index[o.oid] == (o.side, o.px))
            && (!r.ok || lost == o.sz ==> own' == own && o.oid !in r.book.index)
  {
    hide *;
    var b1, left := Matched(b, o.side, o.px, o.sz), Leftover(b, o);
    MatchedWellFormed(b, o.side, o.px, o.sz);
    MatchedFewer(b, o);
    Leaves(b, o);
    AddUnfolds(b, o, before);
    if left > 0 {
      PlaceOutcome(b1, o.(sz := left), before);
      SameLost(b, b1, PlaceOrder(b1, o.(sz := left), before).book, o.side);
    }
  }

  lemma AddUnfolds(b: Book, o: Order, before: Option<nat>)
    ensures var b1, left := Matched(b, o.side, o.px, o.sz), Leftover(b, o);
            AddBefore(b, o, before) == if left > 0 then PlaceOrder(b1, o.(sz := left), before) else Reply(b1, true)
  {
    hide Matched, PlaceOrder, Leftover;
  }

  lemma SameLost(b: Book, b1: Book, b2: Book, side: Side)
    requires OnSide(b2, Opposite(side)) == OnSide(b1, Opposite(side))
    ensures Lost(b, b2, side) == Lost(b, b1, side)
  {
    hide Total, OnSide;
  }

  lemma MatchedFewer(b: Book, o: Order)
    ensures Matched(b, o.side, o.px, o.sz).index.Keys <= b.index.Keys && Leftover(b, o) <= o.sz
  {
    MatchShape(OnSide(b, Opposite(o.side)), o.side, o.px, o.sz);
    hide Match;
  }

  // ----- cancels and resizes

  /** The order with this oid, on the side that the index names. */
  lemma IndexedOrder(b: Book, oid: nat) returns (i: nat)
    requires WellFormed(b) && oid in b.index
    ensures var (side, px) := b.index[oid];
            i < |OnSide(b, side)| && OnSide(b, side)[i].oid == oid && i == Find(OnSide(b, side), px, oid)
  {
    i := Find(OnSide(b, b.index[oid].0), b.index[oid].1, oid);
  }

  ghost predicate Lists(s: seq<Order>, oid: nat) {
    exists i :: 0 <= i < |s| && s[i].oid == oid
  }

  /** s without its one order of that oid; nothing else moves. */
  ghost predicate TakenOut(s: seq<Order>, s': seq<Order>, oid: nat) {
    exists i :: 0 <= i < |s| && s[i].oid == oid && s' == Without(s, i)
  }

  /** A cancel takes out exactly the order with that oid and its index entry. */
  lemma CancelOutcome(b: Book, oid: nat)
    requires WellFormed(b)
    ensures var r := Cancel(b, oid);
            && (r.ok <==> Lists(b.bids, oid) || Lists(b.asks, oid))
            && r.book.index == b.index - {oid}
            && (if Lists(b.bids, oid) then TakenOut(b.bids, r.book.bids, oid) else r.book.bids == b.bids)
            && (if Lists(b.asks, oid) then TakenOut(b.asks, r.book.asks, oid) else r.book.asks == b.asks)
  {
    hide *;
    if oid in b.index {
      var (side, px) := b.index[oid];
      var i := IndexedOrder(b, oid);
      OneSide(b, oid, side, i);
      CancelsAt(b, oid, side, px, i);
      TakenOutAt(OnSide(b, side), oid, i);
      BothSides(b, Cancel(b, oid).book, side);
    } else {
      CancelsNone(b, oid);
    }
  }

  lemma CancelsAt(b: Book, oid: nat, side: Side, px: nat, i: nat)
    requires oid in b.index && b.index[oid] == (side, px) && i == Find(OnSide(b, side), px, oid) < |OnSide(b, side)|
    ensures Cancel(b, oid).ok && Cancel(b, oid).book.index == b.index - {oid}
    ensures OnSide(Cancel(b, oid).book, side) == Without(OnSide(b, side), i)
    ensures OnSide(Cancel(b, oid).book, Opposite(side)) == OnSide(b, Opposite(side))
  {
    hide Find, Without;
  }

  lemma TakenOutAt(s: seq<Order>, oid: nat, i: nat)
    requires i < |s| && s[i].oid == oid
    ensures TakenOut(s, Without(s, i), oid)
  {
  }

  lemma BothSides(b: Book, b': Book, side: Side)
    ensures side == Bid ==> OnSide(b, side) == b.bids && OnSide(b, Opposite(side)) == b.asks
    ensures side == Ask ==> OnSide(b, side) == b.asks && OnSide(b, Opposite(side)) == b.bids
    ensures side == Bid ==> OnSide(b', side) == b'.bids && OnSide(b', Opposite(side)) == b'.asks
    ensures side == Ask ==> OnSide(b', side) == b'.asks && OnSide(b', Opposite(side)) == b'.bids
  {
  }

  lemma CancelsNone(b: Book, oid: nat)
    requires WellFormed(b) && oid !in b.index
    ensures !Lists(b.bids, oid) && !Lists(b.asks, oid)
    ensures Cancel(b, oid) == Reply(b, false) && b.index - {oid} == b.index
    ensures forall sz :: ModifySz(b, oid, sz) == Reply(b, false)
  {
    SidesListed(b);
    hide WellFormed, Find, Without;
  }

  /** No other order has the oid. */
  lemma OneSide(b: Book, oid: nat, side: Side, i: nat)
    requires WellFormed(b) && i < |OnSide(b, side)| && OnSide(b, side)[i].oid == oid
    ensures Lists(OnSide(b, side), oid) && !Lists(OnSide(b, Opposite(side)), oid)
    ensures forall j :: 0 <= j < |OnSide(b, side)| && OnSide(b, side)[j].oid == oid ==> j == i
  {
    OidsUniqueInBook(b);
    hide WellFormed;
  }

  lemma SidesListed(b: Book)
    requires WellFormed(b)
    ensures forall i :: 0 <= i < |b.bids| ==> b.bids[i].oid in b.index
    ensures forall i :: 0 <= i < |b.asks| ==> b.asks[i].oid in b.index
  {
  }

  /** The order with this oid has the new size; its place and every other order are as they were. */
  ghost predicate Resized(s: seq<Order>, s': seq<Order>, oid: nat, sz: nat) {
    && |s'| == |s|
    && forall i :: 0 <= i < |s| ==> s'[i] == if s[i].oid == oid then s[i].(sz := sz) else s[i]
  }

  lemma ResizeOutcome(b: Book, oid: nat, sz: nat)
    requires WellFormed(b)
    ensures var r := ModifySz(b, oid, sz);
            && (r.ok <==> Lists(b.bids, oid) || Lists(b.asks, oid))
            && r.book.index == b.index
            && Resized(b.bids, r.book.bids, oid, sz) && Resized(b.asks, r.book.asks, oid, sz)
  {
    hide *;
    if oid in b.index {
      var (side, px) := b.index[oid];
      var i := IndexedOrder(b, oid);
      OneSide(b, oid, side, i);
      ResizesAt(b, oid, sz, side, px, i);
      ResizedAt(OnSide(b, side), oid, i, sz);
      NotResized(OnSide(b, Opposite(side)), oid, sz);
      BothSides(b, ModifySz(b, oid, sz).book, side);
    } else {
      CancelsNone(b, oid);
      NotResized(b.bids, oid, sz);
      NotResized(b.asks, oid, sz);
    }
  }

  lemma ResizesAt(b: Book, oid: nat, sz: nat, side: Side, px: nat, i: nat)
    requires oid in b.index && b.index[oid] == (side, px) && i == Find(OnSide(b, side), px, oid) < |OnSide(b, side)|
    ensures ModifySz(b, oid, sz).ok && ModifySz(b, oid, sz).book.index == b.index
    ensures OnSide(ModifySz(b, oid, sz).book, side) == OnSide(b, side)[i := OnSide(b, side)[i].(sz := sz)]
    ensures OnSide(ModifySz(b, oid, sz).book, Opposite(side)) == OnSide(b, Opposite(side))
  {
    hide Find;
  }

  lemma ResizedAt(s: seq<Order>, oid: nat, i: nat, sz: nat)
    requires i < |s| && forall j :: 0 <= j < |s| ==> (s[j].oid == oid <==> j == i)
    ensures Resized(s, s[i := s[i].(sz := sz)], oid, sz)
  {
  }

  lemma NotResized(s: seq<Order>, oid: nat, sz: nat)
    requires !Lists(s, oid)
    ensures Resized(s, s, oid, sz)
  {
  }
}
