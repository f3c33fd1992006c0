/**
 What one diff of the node does to the books, in terms of its own fields and those of the status it
 is paired with: the price, size and trigger fields of the order that comes to rest, what an update
 or a removal changes, and when a diff is refused. A block applies its diffs in turn.
 */
module DiffOutcomes {
  import opened Prelude
  import opened Orders
  import opened Matching
  import opened FlatBook
  import opened Blocks
  import opened BookOutcomes

  // ----- opening statuses

  /** The last of these statuses with the oid that opens an order: a resting order's or an activated trigger's. */
  ghost predicate LastOpening(s: seq<Status>, oid: nat, x: Status) {
    exists i :: 0 <= i < |s| && s[i] == x && Opening(s, i, oid) && forall j :: i < j < |s| ==> !Opening(s, j, oid)
  }

  ghost predicate Opening(s: seq<Status>, i: int, oid: nat)
    requires 0 <= i < |s|
  {
    && s[i].order.oid == oid
    && (if s[i].order.isTrigger then s[i].status == "triggered"
        else s[i].status == "open" && s[i].order.tif != Some("Ioc"))
  }

  lemma {:induction false} OpeningStatuses(s: seq<Status>, oid: nat)
    ensures oid in OrderMap(s) <==> exists i :: 0 <= i < |s| && Opening(s, i, oid)
    ensures oid in OrderMap(s) ==> LastOpening(s, oid, OrderMap(s)[oid])
  {
    if s != [] {
      var t, n := s[..|s| - 1], |s| - 1;
      OpeningStatuses(t, oid);
      forall i | 0 <= i < n ensures Opening(s, i, oid) <==> Opening(t, i, oid) {
      }
      if Opening(s, n, oid) {
        assert LastOpening(s, oid, s[n]);
      } else if oid in OrderMap(t) {
        StillLast(s, oid, OrderMap(t)[oid]);
      }
    }
  }

  lemma StillLast(s: seq<Status>, oid: nat, x: Status)
    requires s != [] && LastOpening(s[..|s| - 1], oid, x) && !Opening(s, |s| - 1, oid)
    ensures LastOpening(s, oid, x)
  {
    var t := s[..|s| - 1];
    var i :| 0 <= i < |t| && t[i] == x && Opening(t, i, oid) && forall j :: i < j < |t| ==> !Opening(t, j, oid);
    forall j | i < j < |s| ensures !Opening(s, j, oid) {
      assert j < |t| ==> !Opening(t, j, oid);
    }
    assert s[i] == x && Opening(s, i, oid);
  }

  // ----- New diffs

  /**
   The order that a New diff opens: price from the diff, side and the rest from the status, and
   for an activated trigger the fields of a plain order stamped with the status's time.
   */
  ghost predicate OpensAs(x: Order, s: Status, d: Diff, sz: int) {
    && x.oid == d.oid && x.coin == s.order.coin && x.side == s.order.side && x.detail == s.order.detail
    && x.px == d.px && x.sz == sz && !x.isTrigger
    && (if s.order.isTrigger
        then x.timestamp == s.time && x.tif == Some("Gtc") && x.triggerPx == "0.0" && x.triggerCondition == "Triggered"
        else && x.timestamp == s.order.timestamp && x.tif == s.order.tif
             && x.triggerPx == s.order.triggerPx && x.triggerCondition == s.order.triggerCondition)
  }

  ghost predicate OpenedRests(own: seq<Order>, own': seq<Order>, s: Status, d: Diff, sz: int, before: Option<nat>) {
    exists x :: OpensAs(x, s, d, sz) && ComesToRest(own, own', x, before)
  }

  /** Every other coin keeps its book, or goes on having none. */
  ghost predicate OnlyCoin(books: Books, books': Books, coin: string) {
    forall c :: c != coin ==> (c in books <==> c in books') && (c in books ==> books'[c] == books[c])
  }

  /** No order of the other side has a price that a taker of this side and limit accepts. */
  ghost predicate FacesNothing(b: Book, side: Side, limit: nat) {
    (side == Bid ==> forall i :: 0 <= i < |b.asks| ==> b.asks[i].px > limit)
    && (side == Ask ==> forall i :: 0 <= i < |b.bids| ==> b.bids[i].px < limit)
  }

  /**
   A New diff whose order does not rest yet: it trades what the other side loses, nothing if that
   side has no price within the diff's, and what is left rests at the diff's price.
   */
  lemma NewDiffOutcome(books: Books, pending: map<nat, Status>, d: Diff)
    requires d.change.New? && d.oid in pending && pending[d.oid].order.oid == d.oid
    requires var b := BookOf(books, pending[d.oid].order.coin); WellFormed(b) && d.oid !in b.index
    ensures var r, s, sz := ApplyDiff(books, pending, d), pending[d.oid], d.change.sz;
            var b, b' := BookOf(books, s.order.coin), BookOf(r.books, s.order.coin);
            var own, own', lost := OnSide(b, s.order.side), OnSide(b', s.order.side), Lost(b, b', s.order.side);
            && r.pending == pending - {d.oid} && OnlyCoin(books, r.books, s.order.coin) && s.order.coin in r.books
            && 0 <= lost <= sz && (FacesNothing(b, s.order.side, d.px) ==> lost == 0)
            && (r.ok <==> lost == sz || NamesResting(own, d.px, d.change.before))
            && (r.ok && lost < sz ==>
                  && OpenedRests(own, own', s, d, sz - lost, d.change.before)
                  && d.oid in b'.index && b'.index[d.oid] == (s.order.side, d.px))
            && (!r.ok || lost == sz ==> own' == own && d.oid !in b'.index)
  {
    hide *;
    var s, sz := pending[d.oid], d.change.sz;
    var b, o := BookOf(books, s.order.coin), Opened(s, d.px, sz);
    OpenedFields(s, d, sz);
    NewDiffAdds(books, pending, d);
    AdditionOutcome(b, o, d.change.before);
    FacesNothingLosesNothing(b, o, d.change.before);
    var b' := AddBefore(b, o, d.change.before).book;
    var lost := Lost(b, b', o.side);
    if lost < sz && ComesToRest(OnSide(b, o.side), OnSide(b', o.side), o.(sz := sz - lost), d.change.before) {
      RestsOpened(OnSide(b, o.side), OnSide(b', o.side), s, d, o, sz - lost, d.change.before);
    }
  }

  lemma OpenedFields(s: Status, d: Diff, sz: nat)
    requires s.order.oid == d.oid
    ensures var o := Opened(s, d.px, sz); OpensAs(o, s, d, sz)
    ensures var o := Opened(s, d.px, sz);
            o.side == s.order.side && o.coin == s.order.coin && o.oid == d.oid && o.px == d.px && o.sz == sz
  {
  }

  lemma NewDiffAdds(books: Books, pending: map<nat, Status>, d: Diff)
    requires d.change.New? && d.oid in pending
    ensures var r, s := ApplyDiff(books, pending, d), pending[d.oid];
            var o := Opened(s, d.px, d.change.sz);
            && r.pending == pending - {d.oid} && OnlyCoin(books, r.books, o.coin) && o.coin in r.books
            && AddBefore(BookOf(books, o.coin), o, d.change.before) == Reply(BookOf(r.books, o.coin), r.ok)
  {
    hide AddBefore, Opened;
  }

  lemma RestsOpened(own: seq<Order>, own': seq<Order>, s: Status, d: Diff, o: Order, left: nat, before: Option<nat>)
    requires OpensAs(o, s, d, o.sz) && ComesToRest(own, own', o.(sz := left), before)
    ensures OpenedRests(own, own', s, d, left, before)
  {
    hide ComesToRest;
    assert OpensAs(o.(sz := left), s, d, left);
  }

  lemma FacesNothingLosesNothing(b: Book, o: Order, before: Option<nat>)
    ensures FacesNothing(b, o.side, o.px) ==> Lost(b, AddBefore(b, o, before).book, o.side) == 0
  {
    hide *;
    AddUnfolds(b, o, before);
    var b1, left := Matched(b, o.side, o.px, o.sz), Leftover(b, o);
    if FacesNothing(b, o.side, o.px) {
      NothingWithin(b, o);
      if left > 0 {
        PlaceKeepsOther(b1, o.(sz := left), before);
        SameLost(b, b1, PlaceOrder(b1, o.(sz := left), before).book, o.side);
      }
    }
  }

  lemma PlaceKeepsOther(b: Book, o: Order, before: Option<nat>)
    ensures OnSide(PlaceOrder(b, o, before).book, Opposite(o.side)) == OnSide(b, Opposite(o.side))
  {
    hide Place;
  }

  lemma NothingWithin(b: Book, o: Order)
    requires FacesNothing(b, o.side, o.px)
    ensures Lost(b, Matched(b, o.side, o.px, o.sz), o.side) == 0
  {
    var other := OnSide(b, Opposite(o.side));
    BeyondLimit(other, o.side, o.px, o.sz + 1);
    BeyondLimit(other, o.side, o.px, if o.sz > 0 then o.sz else 1);
    hide Match, Total;
  }

  /**
   A New diff without an opening status, or a second one for it, and a diff that does not parse are
   refused without effect.
   */
  lemma DiffRefused(books: Books, pending: map<nat, Status>, d: Diff)
    requires d.change.Malformed? || (d.change.New? && d.oid !in pending)
    ensures ApplyDiff(books, pending, d) == Stage(books, pending, false)
  {
  }

  // ----- updates and removals

  /** An Update or Remove acts on the book of the diff's coin alone, and is refused if that has no such order. */
  lemma TargetDiffOutcome(books: Books, pending: map<nat, Status>, d: Diff)
    requires d.change.Update? || d.change.Remove?
    requires d.coin in books ==> WellFormed(books[d.coin])
    ensures var r, b := ApplyDiff(books, pending, d), BookOf(books, d.coin);
            var b' := BookOf(r.books, d.coin);
            && r.pending == pending && OnlyCoin(books, r.books, d.coin) && (d.coin in r.books <==> d.coin in books)
            && (r.ok <==> Lists(b.bids, d.oid) || Lists(b.asks, d.oid))
            && (d.change.Update? ==>
                  && b'.index == b.index
                  && Resized(b.bids, b'.bids, d.oid, d.change.newSz) && Resized(b.asks, b'.asks, d.oid, d.change.newSz))
            && (d.change.Remove? ==>
                  && b'.index == b.index - {d.oid}
                  && (if Lists(b.bids, d.oid) then TakenOut(b.bids, b'.bids, d.oid) else b'.bids == b.bids)
                  && (if Lists(b.asks, d.oid) then TakenOut(b.asks, b'.asks, d.oid) else b'.asks == b.asks))
  {
    hide WellFormed, Cancel, ModifySz, TakenOut;
    if d.coin in books {
      if d.change.Update? {
        ResizeOutcome(books[d.coin], d.oid, d.change.newSz);
      } else {
        CancelOutcome(books[d.coin], d.oid);
      }
    }
  }

  // ----- the diffs of a block

  predicate SkippedSpot(coin: string, ignoreSpot: bool) {
    ignoreSpot && (coin == "PURR/USDC" || (|coin| > 0 && coin[0] == '@'))
  }

  /** Stage by stage: a diff of an ignored coin does nothing, any other is applied to what its predecessor left. */
  ghost predicate InTurn(stages: seq<Stage>, diffs: seq<Diff>, ignoreSpot: bool) {
    && |stages| == |diffs| + 1
    && forall i, j :: 0 <= i < |diffs| && j == i + 1 ==>
         if SkippedSpot(diffs[i].coin, ignoreSpot) then stages[j] == stages[i]
         else stages[j] == ApplyDiff(stages[i].books, stages[i].pending, diffs[i]) && stages[j].ok
  }

  /** The coins of the diffs that are not skipped. */
  function ActedOn(diffs: seq<Diff>, ignoreSpot: bool): set<string> {
    set i | 0 <= i < |diffs| && !SkippedSpot(diffs[i].coin, ignoreSpot) :: diffs[i].coin
  }

  /** A block that applies applies every diff, in order, and marks exactly the coins of those it does not skip. */
  lemma {:induction false} EveryDiffInTurn(books: Books, pending: map<nat, Status>, diffs: seq<Diff>, ignoreSpot: bool)
    returns (stages: seq<Stage>)
    requires ApplyDiffs(books, pending, diffs, ignoreSpot).ok
    ensures InTurn(stages, diffs, ignoreSpot) && stages[0] == Stage(books, pending, true)
    ensures var r := ApplyDiffs(books, pending, diffs, ignoreSpot);
            stages[|diffs|].books == r.books && r.touched == ActedOn(diffs, ignoreSpot)
    decreases |diffs|
  {
    hide ApplyDiff, ApplyDiffs, ActedOn, SkippedSpot;
    var first := Stage(books, pending, true);
    if diffs == [] {
      NoDiffs(books, pending, ignoreSpot);
      return [first];
    }
    DiffsUnfold(books, pending, diffs, ignoreSpot);
    var d := diffs[0];
    var next := if SkippedSpot(d.coin, ignoreSpot) then first else ApplyDiff(books, pending, d);
    var rest := EveryDiffInTurn(next.books, next.pending, diffs[1..], ignoreSpot);
    stages := [first] + rest;
    StagesGoOn(first, rest, diffs, ignoreSpot);
    CoinsGoOn(diffs, ignoreSpot);
  }

  lemma NoDiffs(books: Books, pending: map<nat, Status>, ignoreSpot: bool)
    ensures ApplyDiffs(books, pending, [], ignoreSpot) == Applied(books, ActedOn([], ignoreSpot), true)
  {
  }

  lemma DiffsUnfold(books: Books, pending: map<nat, Status>, diffs: seq<Diff>, ignoreSpot: bool)
    requires diffs != [] && ApplyDiffs(books, pending, diffs, ignoreSpot).ok
    ensures var d, r := diffs[0], ApplyDiffs(books, pending, diffs, ignoreSpot);
            if SkippedSpot(d.coin, ignoreSpot) then r == ApplyDiffs(books, pending, diffs[1..], ignoreSpot)
            else
              var st := ApplyDiff(books, pending, d);
              var q := ApplyDiffs(st.books, st.pending, diffs[1..], ignoreSpot);
              st.ok && q.ok && r == q.(touched := {d.coin} + q.touched)
  {
    hide ApplyDiff;
  }

  lemma StagesGoOn(first: Stage, rest: seq<Stage>, diffs: seq<Diff>, ignoreSpot: bool)
    requires diffs != [] && first.ok && InTurn(rest, diffs[1..], ignoreSpot)
    requires if SkippedSpot(diffs[0].coin, ignoreSpot) then rest[0] == first
             else rest[0] == ApplyDiff(first.books, first.pending, diffs[0]) && rest[0].ok
    ensures InTurn([first] + rest, diffs, ignoreSpot)
  {
    hide ApplyDiff, SkippedSpot;
    var all := [first] + rest;
    forall i, j | 0 <= i < |diffs| && j == i + 1
      ensures if SkippedSpot(diffs[i].coin, ignoreSpot) then all[j] == all[i]
              else all[j] == ApplyDiff(all[i].books, all[i].pending, diffs[i]) && all[j].ok
    {
      assert all[j] == rest[i];
      if i > 0 {
        assert all[i] == rest[i - 1] && diffs[i] == diffs[1..][i - 1];
      }
    }
  }

  lemma CoinsGoOn(diffs: seq<Diff>, ignoreSpot: bool)
    requires diffs != []
    ensures ActedOn(diffs, ignoreSpot) ==
            (if SkippedSpot(diffs[0].coin, ignoreSpot) then {} else {diffs[0].coin}) + ActedOn(diffs[1..], ignoreSpot)
  {
    hide SkippedSpot;
    var rest := diffs[1..];
    forall c | c in ActedOn(diffs, ignoreSpot)
      ensures c in ActedOn(rest, ignoreSpot) || (!SkippedSpot(diffs[0].coin, ignoreSpot) && c == diffs[0].coin)
    {
      var i :| 0 <= i < |diffs| && !SkippedSpot(diffs[i].coin, ignoreSpot) && diffs[i].coin == c;
      if i > 0 {
        assert rest[i - 1] == diffs[i];
      }
    }
    forall c | c in ActedOn(rest, ignoreSpot) ensures c in ActedOn(diffs, ignoreSpot) {
      var i :| 0 <= i < |rest| && !SkippedSpot(rest[i].coin, ignoreSpot) && rest[i].coin == c;
      assert diffs[i + 1] == rest[i];
    }
  }
}
