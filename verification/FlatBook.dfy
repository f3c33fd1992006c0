/**
 One coin's order book as a value: each side is a single sequence in price-then-time priority
 (the order in which the node's snapshots list them), beside the oid index. Every operation is a
 total function and follows the source also where oids repeat.
 */
module FlatBook {
  import opened Prelude
  import opened Orders
  import opened Matching

  datatype Book = Book(bids: seq<Order>, asks: seq<Order>, index: map<nat, (Side, nat)>)

  const EMPTY := Book([], [], map[])

  function OnSide(b: Book, side: Side): seq<Order> {
    if side.Bid? then b.bids else b.asks
  }

  function WithSide(b: Book, side: Side, s: seq<Order>): (r: Book)
    ensures OnSide(r, side) == s && OnSide(r, Opposite(side)) == OnSide(b, Opposite(side)) && r.index == b.index
  {
    if side.Bid? then b.(bids := s) else b.(asks := s)
  }

  /** Position of the order with this oid resting at this price; |s| when there is none. */
  function Find(s: seq<Order>, px: nat, oid: nat): (i: nat)
    ensures i <= |s|
    ensures i < |s| ==> s[i].px == px && s[i].oid == oid
    ensures forall j :: 0 <= j < i ==> !(s[j].px == px && s[j].oid == oid)
  {
    if s == [] || (s[0].px == px && s[0].oid == oid) then 0 else 1 + Find(s[1..], px, oid)
  }

  predicate Rests(s: seq<Order>, px: nat, oid: nat) {
    Find(s, px, oid) < |s|
  }

  /** Where a new order at this price queues: behind every order of the same or a better price. */
  function BackOf(s: seq<Order>, side: Side, px: nat): (i: nat)
    ensures i <= |s|
    ensures forall j :: 0 <= j < i ==> !Better(side, px, s[j].px)
    ensures i < |s| ==> Better(side, px, s[i].px)
  {
    if s == [] || Better(side, px, s[0].px) then 0 else 1 + BackOf(s[1..], side, px)
  }

  /** The side after resting o, or None when `before` does not rest at o's price (or o's oid does). */
  function Place(s: seq<Order>, o: Order, before: Option<nat>): Option<seq<Order>> {
    match before
    case None =>
      // a push of an oid already queued at that price is silently ignored
      Some(if Rests(s, o.px, o.oid) then s else InsertAt(s, BackOf(s, o.side, o.px), o))
    case Some(x) =>
      if Rests(s, o.px, o.oid) || !Rests(s, o.px, x) then None else Some(InsertAt(s, Find(s, o.px, x), o))
  }

  datatype Reply = Reply(book: Book, ok: bool)

  function PlaceOrder(b: Book, o: Order, before: Option<nat>): Reply {
    match Place(OnSide(b, o.side), o, before)
    case None => Reply(b, false)
    case Some(s) => Reply(WithSide(b, o.side, s).(index := b.index[o.oid := (o.side, o.px)]), true)
  }

  /** The book once a taker has been matched; completely filled makers leave the index. */
  function Matched(b: Book, side: Side, limit: nat, sz: nat): Book {
    var r := Match(OnSide(b, Opposite(side)), side, limit, sz);
    WithSide(b, Opposite(side), r.makers).(index := b.index - (set oid | oid in r.filled))
  }

  function Leftover(b: Book, o: Order): nat {
    Match(OnSide(b, Opposite(o.side)), o.side, o.px, o.sz).left
  }

  function AddBefore(b: Book, o: Order, before: Option<nat>): Reply {
    var b1 := Matched(b, o.side, o.px, o.sz);
    if Leftover(b, o) > 0 then PlaceOrder(b1, o.(sz := Leftover(b, o)), before) else Reply(b1, true)
  }

  function Cancel(b: Book, oid: nat): Reply {
    if oid !in b.index then Reply(b, false)
    else
      var (side, px) := b.index[oid];
      var b1 := b.(index := b.index - {oid});
      var s := OnSide(b, side);
      if Rests(s, px, oid) then Reply(WithSide(b1, side, Without(s, Find(s, px, oid))), true) else Reply(b1, false)
  }

  function ModifySz(b: Book, oid: nat, sz: nat): Reply {
    if oid !in b.index then Reply(b, false)
    else
      var (side, px) := b.index[oid];
      var s := OnSide(b, side);
      if Rests(s, px, oid) then
        var i := Find(s, px, oid);
        Reply(WithSide(b, side, s[i := s[i].(sz := sz)]), true)
      else Reply(b, false)
  }

  // ----- invariants

  /** Within one price level oids are distinct. */
  ghost predicate LevelUnique(s: seq<Order>) {
    forall i, j :: 0 <= i < j < |s| && s[i].px == s[j].px ==> s[i].oid != s[j].oid
  }

  ghost predicate Uncrossed(b: Book) {
    b.bids != [] && b.asks != [] ==> b.bids[0].px < b.asks[0].px
  }

  /** Every index entry points at a resting order of that side and price. */
  ghost predicate IndexPoints(b: Book) {
    forall oid :: oid in b.index ==> Rests(OnSide(b, b.index[oid].0), b.index[oid].1, oid)
  }

  /** Holds after any sequence of operations whatsoever. */
  ghost predicate Sound(b: Book) {
    && Sorted(b.bids, Bid) && Sorted(b.asks, Ask)
    && LevelUnique(b.bids) && LevelUnique(b.asks)
    && Uncrossed(b)
    && IndexPoints(b)
  }

  ghost predicate SideIndexed(s: seq<Order>, side: Side, index: map<nat, (Side, nat)>) {
    forall i :: 0 <= i < |s| ==> s[i].oid in index && index[s[i].oid] == (side, s[i].px)
  }

  /** Moreover oids are unique in the whole book and the index lists exactly the resting orders. */
  ghost predicate WellFormed(b: Book) {
    Sound(b) && SideIndexed(b.bids, Bid, b.index) && SideIndexed(b.asks, Ask, b.index)
  }

  lemma OidsUniqueInBook(b: Book)
    requires WellFormed(b)
    ensures forall i, j :: 0 <= i < j < |b.bids| ==> b.bids[i].oid != b.bids[j].oid
    ensures forall i, j :: 0 <= i < j < |b.asks| ==> b.asks[i].oid != b.asks[j].oid
    ensures forall i, j :: 0 <= i < |b.bids| && 0 <= j < |b.asks| ==> b.bids[i].oid != b.asks[j].oid
  {
    forall i, j | 0 <= i < j < |b.bids| ensures b.bids[i].oid != b.bids[j].oid {
      assert b.index[b.bids[i].oid] == (Bid, b.bids[i].px) && b.index[b.bids[j].oid] == (Bid, b.bids[j].px);
    }
    forall i, j | 0 <= i < j < |b.asks| ensures b.asks[i].oid != b.asks[j].oid {
      assert b.index[b.asks[i].oid] == (Ask, b.asks[i].px) && b.index[b.asks[j].oid] == (Ask, b.asks[j].px);
    }
    forall i, j | 0 <= i < |b.bids| && 0 <= j < |b.asks| ensures b.bids[i].oid != b.asks[j].oid {
      assert b.index[b.bids[i].oid] == (Bid, b.bids[i].px) && b.index[b.asks[j].oid] == (Ask, b.asks[j].px);
    }
  }

  // ----- a side under the three kinds of change

  ghost predicate SideOk(s: seq<Order>, side: Side) {
    Sorted(s, side) && LevelUnique(s)
  }

  lemma RestsAt(s: seq<Order>, i: nat)
    requires i < |s|
    ensures Rests(s, s[i].px, s[i].oid)
  {
  }

  /** s' keeps the orders of s at the increasing positions m, up to their sizes. */
  ghost predicate Keeps(s: seq<Order>, s': seq<Order>, m: seq<nat>) {
    && |m| == |s'|
    && (forall i :: 0 <= i < |m| ==> m[i] < |s| && s'[i] == s[m[i]].(sz := s'[i].sz))
    && (forall i, j :: 0 <= i < j < |m| ==> m[i] < m[j])
  }

  lemma KeptSideOk(s: seq<Order>, s': seq<Order>, m: seq<nat>, side: Side)
    requires SideOk(s, side) && Keeps(s, s', m)
    ensures SideOk(s', side)
    ensures forall i :: 0 <= i < |s'| ==> Rests(s, s'[i].px, s'[i].oid)
    ensures s' != [] ==> s != [] && !Better(side, s'[0].px, s[0].px)
  {
    forall i | 0 <= i < |s'| ensures Rests(s, s'[i].px, s'[i].oid) {
      RestsAt(s, m[i]);
    }
    if s' != [] {
      assert s'[0].px == s[m[0]].px;
    }
  }

  lemma MatchSide(s: seq<Order>, taker: Side, limit: nat, sz: nat)
    requires SideOk(s, Opposite(taker))
    ensures var r := Match(s, taker, limit, sz);
            && SideOk(r.makers, Opposite(taker))
            && (r.makers != [] ==> s != [] && !Better(Opposite(taker), r.makers[0].px, s[0].px))
            && (forall px, oid :: Rests(s, px, oid) && oid !in r.filled ==> Rests(r.makers, px, oid))
            && (forall i :: 0 <= i < |r.makers| ==> Rests(s, r.makers[i].px, r.makers[i].oid))
  {
    MatchShape(s, taker, limit, sz);
    var r := Match(s, taker, limit, sz);
    var k := |r.filled|;
    hide Match, Total, Sorted, LevelUnique;
    assert |r.makers| == |s| - k;
    var m := seq(|s| - k, i requires 0 <= i => k + i);
    assert Keeps(s, r.makers, m);
    KeptSideOk(s, r.makers, m, Opposite(taker));
    forall j | 0 <= j < k ensures s[j].oid in r.filled {
      assert r.filled[j] == s[j].oid;
    }
    forall px, oid | Rests(s, px, oid) && oid !in r.filled ensures Rests(r.makers, px, oid) {
      RestsAt(r.makers, Find(s, px, oid) - k);
    }
  }

  /** Without global oid uniqueness a filled oid may rest at another price as well; with it, it is gone. */
  lemma MatchUnindexes(s: seq<Order>, taker: Side, limit: nat, sz: nat, index: map<nat, (Side, nat)>)
    requires SideOk(s, Opposite(taker)) && SideIndexed(s, Opposite(taker), index)
    ensures var r := Match(s, taker, limit, sz);
            && (forall i :: 0 <= i < |r.makers| ==> r.makers[i].oid !in r.filled)
            && (forall oid :: oid in r.filled ==> oid in index && index[oid].0 == Opposite(taker))
  {
    MatchShape(s, taker, limit, sz);
    var r := Match(s, taker, limit, sz);
    var k := |r.filled|;
    assert |r.makers| == |s| - k;
    forall i, j | 0 <= i < |r.makers| && 0 <= j < k ensures r.makers[i].oid != r.filled[j] {
      assert r.makers[i].oid == s[k + i].oid && r.filled[j] == s[j].oid;
      assert index[s[k + i].oid] == (Opposite(taker), s[k + i].px) && index[s[j].oid] == (Opposite(taker), s[j].px);
    }
    forall j | 0 <= j < k ensures r.filled[j] in index && index[r.filled[j]].0 == Opposite(taker) {
      assert r.filled[j] == s[j].oid;
    }
  }

  lemma InsertLeavesOthers(s: seq<Order>, i: nat, o: Order, px: nat, oid: nat)
    requires i <= |s| && Rests(s, px, oid)
    ensures Rests(InsertAt(s, i, o), px, oid)
  {
    var j := Find(s, px, oid);
    RestsAt(InsertAt(s, i, o), if j < i then j else j + 1);
  }

  lemma InsertSide(s: seq<Order>, i: nat, o: Order)
    requires SideOk(s, o.side) && i <= |s| && !Rests(s, o.px, o.oid)
    requires forall j :: 0 <= j < i ==> !Better(o.side, o.px, s[j].px)
    requires i < |s| ==> !Better(o.side, s[i].px, o.px)
    ensures SideOk(InsertAt(s, i, o), o.side)
    ensures Rests(InsertAt(s, i, o), o.px, o.oid)
    ensures forall px, oid :: Rests(s, px, oid) ==> Rests(InsertAt(s, i, o), px, oid)
  {
    var s' := InsertAt(s, i, o);
    assert s'[i] == o;
    RestsAt(s', i);
    forall px, oid | Rests(s, px, oid) ensures Rests(s', px, oid) {
      InsertLeavesOthers(s, i, o, px, oid);
    }
    assert Sorted(s', o.side) by {
      hide Rests;
    }
    assert LevelUnique(s') by {
      forall j | 0 <= j < |s| ensures s[j].px == o.px ==> s[j].oid != o.oid {
        RestsAt(s, j);
      }
      hide Rests, Sorted;
    }
  }

  lemma PlaceSide(s: seq<Order>, o: Order, before: Option<nat>)
    requires SideOk(s, o.side)
    ensures var p := Place(s, o, before);
            p.Some? ==>
              && SideOk(p.value, o.side)
              && Rests(p.value, o.px, o.oid)
              && (forall px, oid :: Rests(s, px, oid) ==> Rests(p.value, px, oid))
              && (p.value == s || exists i :: 0 <= i <= |s| && p.value == InsertAt(s, i, o))
              && p.value != []
              && (p.value[0].px == o.px || (s != [] && p.value[0] == s[0]))
  {
    var p := Place(s, o, before);
    if p.Some? && p.value != s {
      var i := if before.None? then BackOf(s, o.side, o.px) else Find(s, o.px, before.value);
      InsertSide(s, i, o);
    } else if p.Some? {
      assert before.None? && Rests(s, o.px, o.oid);
    }
  }

  lemma DropLeavesOthers(s: seq<Order>, k: nat, px: nat, oid: nat)
    requires k < |s| && Rests(s, px, oid) && oid != s[k].oid
    ensures Rests(Without(s, k), px, oid)
  {
    var j := Find(s, px, oid);
    RestsAt(Without(s, k), if j < k then j else j - 1);
  }

  lemma DropSide(s: seq<Order>, side: Side, px: nat, oid: nat)
    requires SideOk(s, side) && Rests(s, px, oid)
    ensures var s' := Without(s, Find(s, px, oid));
            && SideOk(s', side)
            && (forall i :: 0 <= i < |s'| ==> !(s'[i].px == px && s'[i].oid == oid))
            && (forall p, o :: Rests(s, p, o) && o != oid ==> Rests(s', p, o))
            && (forall i :: 0 <= i < |s'| ==> Rests(s, s'[i].px, s'[i].oid))
            && (s' != [] ==> !Better(side, s'[0].px, s[0].px))
  {
    var k := Find(s, px, oid);
    var s' := Without(s, k);
    forall i | 0 <= i < |s'| ensures !(s'[i].px == px && s'[i].oid == oid) {
      assert s'[i] == s[if i < k then i else i + 1];
    }
    var m := seq(|s'|, i requires 0 <= i => if i < k then i else i + 1);
    assert Keeps(s, s', m);
    hide Rests, Sorted, LevelUnique;
    KeptSideOk(s, s', m, side);
    forall p, o | Rests(s, p, o) && o != oid ensures Rests(s', p, o) {
      DropLeavesOthers(s, k, p, o);
    }
  }

  lemma ResizeSide(s: seq<Order>, side: Side, i: nat, sz: nat)
    requires SideOk(s, side) && i < |s|
    ensures var s' := s[i := s[i].(sz := sz)];
            && SideOk(s', side)
            && (forall p, o :: Rests(s, p, o) ==> Rests(s', p, o))
  {
    var s' := s[i := s[i].(sz := sz)];
    forall p, o | Rests(s, p, o) ensures Rests(s', p, o) {
      RestsAt(s', Find(s, p, o));
    }
  }

  // ----- the operations keep the invariants

  /** Each operation replaces one side and the index; these are the facts it owes. */
  ghost predicate SoundChange(b: Book, side: Side, s: seq<Order>, index: map<nat, (Side, nat)>) {
    && SideOk(s, side)
    && Uncrossed(WithSide(b, side, s))
    && (forall oid :: oid in index ==>
          if index[oid].0 == side then Rests(s, index[oid].1, oid) else oid in b.index && b.index[oid] == index[oid])
  }

  lemma ChangeSound(b: Book, side: Side, s: seq<Order>, index: map<nat, (Side, nat)>)
    requires Sound(b) && SoundChange(b, side, s, index)
    ensures Sound(WithSide(b, side, s).(index := index))
  {
    hide Rests, Sorted, LevelUnique;
  }

  /** The same for the stronger invariant. */
  lemma ChangeWellFormed(b: Book, side: Side, s: seq<Order>, index: map<nat, (Side, nat)>)
    requires WellFormed(b) && Sound(WithSide(b, side, s).(index := index))
    requires SideIndexed(s, side, index)
    requires forall oid :: oid in b.index && b.index[oid].0 != side ==> oid in index && index[oid] == b.index[oid]
    ensures WellFormed(WithSide(b, side, s).(index := index))
  {
    hide Sound;
  }

  lemma SideFacts(b: Book, side: Side)
    requires Sound(b)
    ensures SideOk(OnSide(b, side), side)
    ensures Uncrossed(b)
    ensures WellFormed(b) ==> SideIndexed(OnSide(b, side), side, b.index)
  {
  }

  lemma EntryRests(b: Book, oid: nat)
    requires Sound(b) && oid in b.index
    ensures var (side, px) := b.index[oid];
            var s := OnSide(b, side);
            Rests(s, px, oid) && Find(s, px, oid) < |s|
  {
  }

  lemma HeadUncrossed(b: Book, side: Side, s: seq<Order>)
    requires Uncrossed(b)
    requires s != [] ==> OnSide(b, side) != [] && !Better(side, s[0].px, OnSide(b, side)[0].px)
    ensures Uncrossed(WithSide(b, side, s))
  {
  }

  lemma MatchedSound(b: Book, side: Side, limit: nat, sz: nat)
    requires Sound(b)
    ensures Sound(Matched(b, side, limit, sz))
  {
    var s := OnSide(b, Opposite(side));
    var r := Match(s, side, limit, sz);
    var index := b.index - (set oid | oid in r.filled);
    MatchSide(s, side, limit, sz);
    HeadUncrossed(b, Opposite(side), r.makers);
    hide Match, Rests, Sorted, LevelUnique, Uncrossed;
    assert SoundChange(b, Opposite(side), r.makers, index);
    ChangeSound(b, Opposite(side), r.makers, index);
  }

  lemma MatchedWellFormed(b: Book, side: Side, limit: nat, sz: nat)
    requires WellFormed(b)
    ensures WellFormed(Matched(b, side, limit, sz))
  {
    hide Sound, Match, Sorted, LevelUnique;
    MatchedSound(b, side, limit, sz);
    var s := OnSide(b, Opposite(side));
    var r := Match(s, side, limit, sz);
    var index := b.index - (set oid | oid in r.filled);
    SideFacts(b, Opposite(side));
    MatchSide(s, side, limit, sz);
    MatchUnindexes(s, side, limit, sz, b.index);
    forall i | 0 <= i < |r.makers|
      ensures r.makers[i].oid in index && index[r.makers[i].oid] == (Opposite(side), r.makers[i].px)
    {
      IndexedAt(s, Opposite(side), b.index, r.makers[i].px, r.makers[i].oid);
    }
    ChangeWellFormed(b, Opposite(side), r.makers, index);
  }

  lemma IndexedAt(s: seq<Order>, side: Side, index: map<nat, (Side, nat)>, px: nat, oid: nat)
    requires SideIndexed(s, side, index) && Rests(s, px, oid)
    ensures oid in index && index[oid] == (side, px)
  {
  }

  lemma PlaceOrderSound(b: Book, o: Order, before: Option<nat>)
    requires Sound(b)
    requires forall i :: 0 <= i < |OnSide(b, Opposite(o.side))| ==>
               !Crosses(o.side, o.px, OnSide(b, Opposite(o.side))[i].px)
    ensures Sound(PlaceOrder(b, o, before).book)
  {
    var s := OnSide(b, o.side);
    var p := Place(s, o, before);
    hide Place, Rests, Sorted, LevelUnique;
    PlaceSide(s, o, before);
    if p.Some? {
      assert Uncrossed(WithSide(b, o.side, p.value));
      hide Uncrossed;
      assert SoundChange(b, o.side, p.value, b.index[o.oid := (o.side, o.px)]);
      ChangeSound(b, o.side, p.value, b.index[o.oid := (o.side, o.px)]);
    }
  }

  /** No assumption on the order at all: not even that its oid is new. */
  lemma AddBeforeSound(b: Book, o: Order, before: Option<nat>)
    requires Sound(b)
    ensures Sound(AddBefore(b, o, before).book)
  {
    MatchedSound(b, o.side, o.px, o.sz);
    if Leftover(b, o) > 0 {
      LeftoverFacesNothing(OnSide(b, Opposite(o.side)), o.side, o.px, o.sz);
      hide Sound, PlaceOrder, Match;
      PlaceOrderSound(Matched(b, o.side, o.px, o.sz), o.(sz := Leftover(b, o)), before);
    }
  }

  /** The order would rest while its oid still rests at another price or on the other side. */
  ghost predicate DuplicateElsewhere(b: Book, o: Order, before: Option<nat>) {
    var b1 := Matched(b, o.side, o.px, o.sz);
    && Leftover(b, o) > 0
    && o.oid in b1.index && b1.index[o.oid] != (o.side, o.px)
    && (before.Some? ==> Rests(OnSide(b1, o.side), o.px, before.value))
  }

  lemma PlaceOrderWellFormed(b: Book, o: Order, before: Option<nat>)
    requires WellFormed(b) && Sound(PlaceOrder(b, o, before).book)
    requires o.oid in b.index && b.index[o.oid] != (o.side, o.px) ==>
               before.Some? && !Rests(OnSide(b, o.side), o.px, before.value)
    ensures WellFormed(PlaceOrder(b, o, before).book)
  {
    hide Sound, Rests, Sorted, LevelUnique;
    var s := OnSide(b, o.side);
    var p := Place(s, o, before);
    var index := b.index[o.oid := (o.side, o.px)];
    if p.Some? {
      assert o.oid in b.index ==> b.index[o.oid] == (o.side, o.px);
      SideFacts(b, o.side);
      PlaceSide(s, o, before);
      assert SideIndexed(s, o.side, index);
      hide Place;
      if p.value != s {
        var i :| 0 <= i <= |s| && p.value == InsertAt(s, i, o);
        InsertIndexed(s, i, o, index);
      }
      ChangeWellFormed(b, o.side, p.value, index);
    }
  }

  lemma InsertIndexed(s: seq<Order>, i: nat, o: Order, index: map<nat, (Side, nat)>)
    requires i <= |s| && SideIndexed(s, o.side, index) && o.oid in index && index[o.oid] == (o.side, o.px)
    ensures SideIndexed(InsertAt(s, i, o), o.side, index)
  {
  }

  lemma PlaceOrderDuplicates(b: Book, o: Order, before: Option<nat>)
    requires WellFormed(b)
    requires o.oid in b.index && b.index[o.oid] != (o.side, o.px)
    requires before.Some? ==> Rests(OnSide(b, o.side), o.px, before.value)
    ensures !WellFormed(PlaceOrder(b, o, before).book)
  {
    var s := OnSide(b, o.side);
    var (side', px') := b.index[o.oid];
    if Rests(s, o.px, o.oid) {
      IndexedAt(s, o.side, b.index, o.px, o.oid);
    }
    var b' := PlaceOrder(b, o, before).book;
    PlaceSide(s, o, before);
    assert Rests(OnSide(b', side'), px', o.oid);
    if WellFormed(b') {
      IndexedAt(OnSide(b', side'), side', b'.index, px', o.oid);
    }
  }

  /** Exactly when adding keeps oids unique and the index exact; in particular always for a fresh oid. */
  lemma AddBeforeWellFormedIff(b: Book, o: Order, before: Option<nat>)
    requires WellFormed(b)
    ensures WellFormed(AddBefore(b, o, before).book) <==> !DuplicateElsewhere(b, o, before)
    ensures o.oid !in b.index ==> WellFormed(AddBefore(b, o, before).book)
  {
    var b1 := Matched(b, o.side, o.px, o.sz);
    var o1 := o.(sz := Leftover(b, o));
    AddBeforeSound(b, o, before);
    MatchedWellFormed(b, o.side, o.px, o.sz);
    assert o.oid !in b.index ==> o.oid !in b1.index;
    if Leftover(b, o) > 0 {
      hide Sound, Matched, PlaceOrder, Rests, Match;
      if DuplicateElsewhere(b, o, before) {
        PlaceOrderDuplicates(b1, o1, before);
      } else {
        PlaceOrderWellFormed(b1, o1, before);
      }
    }
  }

  lemma CancelSound(b: Book, oid: nat)
    requires Sound(b)
    ensures Sound(Cancel(b, oid).book)
    ensures Cancel(b, oid).ok == (oid in b.index)
  {
    hide Sorted, LevelUnique, Find, Rests, Uncrossed, IndexPoints;
    if oid in b.index {
      var (side, px) := b.index[oid];
      var s := OnSide(b, side);
      EntryRests(b, oid);
      var s' := Without(s, Find(s, px, oid));
      SideFacts(b, side);
      DropSide(s, side, px, oid);
      HeadUncrossed(b, side, s');
      forall o | o in b.index && o != oid && b.index[o].0 == side ensures Rests(s', b.index[o].1, o) {
        EntryRests(b, o);
      }
      assert SoundChange(b, side, s', b.index - {oid});
      ChangeSound(b, side, s', b.index - {oid});
    }
  }

  lemma CancelWellFormed(b: Book, oid: nat)
    requires WellFormed(b)
    ensures WellFormed(Cancel(b, oid).book)
  {
    hide Sound, Find, Sorted, LevelUnique;
    CancelSound(b, oid);
    if oid in b.index {
      var (side, px) := b.index[oid];
      var s := OnSide(b, side);
      var s' := Without(s, Find(s, px, oid));
      SideFacts(b, side);
      EntryRests(b, oid);
      DropSide(s, side, px, oid);
      forall i | 0 <= i < |s'|
        ensures s'[i].oid != oid && s'[i].oid in b.index && b.index[s'[i].oid] == (side, s'[i].px)
      {
        IndexedAt(s, side, b.index, s'[i].px, s'[i].oid);
      }
      ChangeWellFormed(b, side, s', b.index - {oid});
    }
  }

  lemma ModifySzSound(b: Book, oid: nat, sz: nat)
    requires Sound(b)
    ensures Sound(ModifySz(b, oid, sz).book)
    ensures ModifySz(b, oid, sz).ok == (oid in b.index)
  {
    hide Sorted, LevelUnique, Rests, Uncrossed, IndexPoints;
    if oid in b.index {
      var (side, px) := b.index[oid];
      var s := OnSide(b, side);
      EntryRests(b, oid);
      var i := Find(s, px, oid);
      var s' := s[i := s[i].(sz := sz)];
      SideFacts(b, side);
      ResizeSide(s, side, i, sz);
      HeadUncrossed(b, side, s');
      forall o | o in b.index && b.index[o].0 == side ensures Rests(s', b.index[o].1, o) {
        EntryRests(b, o);
      }
      assert SoundChange(b, side, s', b.index);
      ChangeSound(b, side, s', b.index);
    }
  }

  lemma ModifySzWellFormed(b: Book, oid: nat, sz: nat)
    requires WellFormed(b)
    ensures WellFormed(ModifySz(b, oid, sz).book)
  {
    hide Sound, Sorted, LevelUnique;
    ModifySzSound(b, oid, sz);
    if oid in b.index {
      var (side, px) := b.index[oid];
      var s := OnSide(b, side);
      EntryRests(b, oid);
      SideFacts(b, side);
      var i := Find(s, px, oid);
      ChangeWellFormed(b, side, s[i := s[i].(sz := sz)], b.index);
    }
  }

  // ----- whole runs

  datatype Op = Add(order: Order, before: Option<nat>) | CancelOp(oid: nat) | Resize(oid: nat, sz: nat)

  function Apply(b: Book, op: Op): Reply {
    match op
    case Add(o, before) => AddBefore(b, o, before)
    case CancelOp(oid) => Cancel(b, oid)
    case Resize(oid, sz) => ModifySz(b, oid, sz)
  }

  /** The book after a run; refused operations count too, with whatever they changed. */
  function Run(b: Book, ops: seq<Op>): Book
    decreases |ops|
  {
    if ops == [] then b else Run(Apply(b, ops[0]).book, ops[1..])
  }

  /** No added oid is already indexed. */
  ghost predicate FreshAdds(b: Book, ops: seq<Op>)
    decreases |ops|
  {
    ops != [] ==> (ops[0].Add? ==> ops[0].order.oid !in b.index) && FreshAdds(Apply(b, ops[0]).book, ops[1..])
  }

  /** Every run from a sound book, refused operations and repeated oids included, ends in a sound book. */
  lemma {:induction false} RunSound(b: Book, ops: seq<Op>)
    requires Sound(b)
    ensures Sound(Run(b, ops))
    decreases |ops|
  {
    if ops != [] {
      hide Sound, AddBefore, Cancel, ModifySz;
      match ops[0] {
        case Add(o, before) => AddBeforeSound(b, o, before);
        case CancelOp(oid) => CancelSound(b, oid);
        case Resize(oid, sz) => ModifySzSound(b, oid, sz);
      }
      RunSound(Apply(b, ops[0]).book, ops[1..]);
    }
  }

  /** When added oids are new, every run also keeps oids unique and the index exact. */
  lemma {:induction false} RunWellFormed(b: Book, ops: seq<Op>)
    requires WellFormed(b) && FreshAdds(b, ops)
    ensures WellFormed(Run(b, ops))
    decreases |ops|
  {
    if ops != [] {
      hide WellFormed, AddBefore, Cancel, ModifySz;
      match ops[0] {
        case Add(o, before) => AddBeforeWellFormedIff(b, o, before);
        case CancelOp(oid) => CancelWellFormed(b, oid);
        case Resize(oid, sz) => ModifySzWellFormed(b, oid, sz);
      }
      RunWellFormed(Apply(b, ops[0]).book, ops[1..]);
    }
  }

  lemma EmptyWellFormed()
    ensures WellFormed(EMPTY)
  {
  }
}
