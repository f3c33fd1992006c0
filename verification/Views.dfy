/**
 The precision views of a book. Seven are kept: unrounded, five figures with mantissa 1, 2 and 5,
 and four, three and two figures. Each after the first is aggregated from an earlier view.
 `Direct` is the reference: the aggregation computed from the orders themselves.
 */
module Views {
  import opened Prelude
  import opened Orders
  import opened Buckets
  import opened Aggregation
  import opened FlatBook

  datatype View = View(bids: seq<L2Level>, asks: seq<L2Level>)

  const RAW := Precision(None, None)
  const FIVE := Precision(Some(5), None)
  const FIVE_BY_2 := Precision(Some(5), Some(2))
  const FIVE_BY_5 := Precision(Some(5), Some(5))
  const FOUR := Precision(Some(4), None)
  const THREE := Precision(Some(3), None)
  const TWO := Precision(Some(2), None)

  /** Each order as a level of its own. */
  function Units(s: seq<Order>): (r: seq<L2Level>)
    ensures |r| == |s|
    ensures forall i {:trigger r[i]} :: 0 <= i < |s| ==> r[i] == L2Level(s[i].px, s[i].sz, 1)
  {
    seq(|s|, i requires 0 <= i < |s| => L2Level(s[i].px, s[i].sz, 1))
  }

  /** Aggregation of a side straight from its orders. */
  function DirectSide(s: seq<Order>, side: Side, p: Precision): seq<L2Level>
    requires Supported(p)
  {
    Group(Units(s), side, p)
  }

  function Direct(b: Book, p: Precision): View
    requires Supported(p)
  {
    View(DirectSide(b.bids, Bid, p), DirectSide(b.asks, Ask, p))
  }

  function Coarsen(v: View, p: Precision): View
    requires Supported(p)
  {
    View(Group(v.bids, Bid, p), Group(v.asks, Ask, p))
  }

  /** The first n levels of each side. */
  function Truncate(v: View, n: nat): View {
    View(Take(v.bids, Some(n)), Take(v.asks, Some(n)))
  }

  /** The view each precision is derived from. */
  function Source(p: Precision): Precision
    requires p in {FIVE, FIVE_BY_2, FIVE_BY_5, FOUR, THREE, TWO}
  {
    if p == FIVE then RAW
    else if p == FIVE_BY_2 || p == FIVE_BY_5 then FIVE
    else if p == FOUR then FIVE_BY_5
    else if p == THREE then FOUR
    else THREE
  }

  const OFFERED := {RAW, FIVE, FIVE_BY_2, FIVE_BY_5, FOUR, THREE, TWO}

  predicate Offered(p: Precision) {
    p in OFFERED
  }

  /** All views of a book. */
  function ViewsOf(b: Book): map<Precision, View> {
    map p | p in OFFERED :: Cascaded(b, p)
  }

  function Rank(p: Precision): nat {
    if p == RAW then 0 else if p == FIVE then 1 else if p == FIVE_BY_2 || p == FIVE_BY_5 then 2
    else if p == FOUR then 3 else if p == THREE then 4 else 5
  }

  /** The view as the server computes it. */
  function Cascaded(b: Book, p: Precision): View
    requires Offered(p)
    decreases Rank(p)
  {
    if p == RAW then Direct(b, RAW) else Coarsen(Cascaded(b, Source(p)), p)
  }

  // ----- what a level shows

  /** The orders whose prices round to b. */
  function InBucket(s: seq<Order>, side: Side, p: Precision, b: nat): seq<Order>
    requires Supported(p)
  {
    if s == [] then []
    else
      var o := s[|s| - 1];
      InBucket(s[..|s| - 1], side, p, b) + (if Bucket(o.px, side, p) == b then [o] else [])
  }

  lemma {:induction false} BucketTotals(s: seq<Order>, side: Side, p: Precision, b: nat)
    requires Supported(p)
    ensures SizeAt(Units(s), side, p, b) == Total(InBucket(s, side, p, b))
    ensures CountAt(Units(s), side, p, b) == |InBucket(s, side, p, b)|
  {
    if s != [] {
      var t, o := s[..|s| - 1], s[|s| - 1];
      hide Bucket;
      BucketTotals(t, side, p, b);
      assert Units(s)[..|s| - 1] == Units(t);
      TotalConcat(InBucket(t, side, p, b), [o]);
      assert InBucket(t, side, p, b) + [] == InBucket(t, side, p, b);
      assert [o][1..] == [];
    }
  }

  ghost predicate ShowsPrice(g: seq<L2Level>, px: nat) {
    exists i :: 0 <= i < |g| && g[i].px == px
  }

  /**
   Direct aggregation shows one level for every rounded price of an order and no other, falling for
   bids and rising for asks, each with the total size and the number of the orders that round to it.
   */
  lemma DirectShowsOrders(s: seq<Order>, side: Side, p: Precision)
    requires Supported(p) && Sorted(s, side)
    ensures var g := DirectSide(s, side, p);
            && (forall i, j :: 0 <= i < j < |g| ==> if side == Bid then g[i].px > g[j].px else g[i].px < g[j].px)
            && (forall i :: 0 <= i < |g| ==>
                  var os := InBucket(s, side, p, g[i].px); os != [] && g[i].sz == Total(os) && g[i].n == |os|)
            && (forall k :: 0 <= k < |s| ==> ShowsPrice(g, Bucket(s[k].px, side, p)))
  {
    hide Bucket, Group, SizeAt, CountAt, InBucket, Total;
    var u, g := Units(s), DirectSide(s, side, p);
    GroupIsGrouping(u, side, p);
    forall i | 0 <= i < |g|
      ensures var os := InBucket(s, side, p, g[i].px); os != [] && g[i].sz == Total(os) && g[i].n == |os|
    {
      BucketTotals(s, side, p, g[i].px);
      var k :| 0 <= k < |u| && Bucket(u[k].px, side, p) == g[i].px;
      InItsBucket(s, side, p, k);
    }
    forall k | 0 <= k < |s| ensures ShowsPrice(g, Bucket(s[k].px, side, p)) {
      assert Listed(g, Bucket(u[k].px, side, p));
    }
  }

  lemma {:induction false} InItsBucket(s: seq<Order>, side: Side, p: Precision, k: nat)
    requires Supported(p) && k < |s|
    ensures InBucket(s, side, p, Bucket(s[k].px, side, p)) != []
  {
    hide Bucket;
    if k < |s| - 1 {
      InItsBucket(s[..|s| - 1], side, p, k);
    }
  }

  // ----- price by price

  /** Prices with no more digits than figures kept are their own bucket. */
  lemma ShortPrice(px: nat, side: Side, p: Precision)
    requires p in {FIVE, FOUR, THREE, TWO} && NumDigits(px) <= p.figs.value
    ensures Bucket(px, side, p) == px
  {
    assert Step(p, NumDigits(px)) == 1;
    Fixed(px, 1);
  }

  lemma TenfoldStep(fine: Precision, coarse: Precision, d: nat)
    requires fine in {FIVE, FOUR, THREE} && coarse in {FOUR, THREE, TWO} && coarse.figs.value == fine.figs.value - 1
    requires d >= fine.figs.value
    ensures Nests(fine, coarse, d)
  {
    hide Pow10;
    Pow10Divides(d - fine.figs.value, d - coarse.figs.value);
  }

  /** Dropping one more figure at a time loses nothing, whatever the price. */
  lemma OneFigureLess(px: nat, side: Side, fine: Precision, coarse: Precision)
    requires fine in {FIVE, FOUR, THREE} && coarse in {FOUR, THREE, TWO} && coarse.figs.value == fine.figs.value - 1
    ensures Bucket(Bucket(px, side, fine), side, coarse) == Bucket(px, side, coarse)
  {
    hide NumDigits, Bucket;
    if NumDigits(px) >= fine.figs.value {
      TenfoldStep(fine, coarse, NumDigits(px));
      BucketNested(px, side, fine, coarse);
    } else {
      ShortPrice(px, side, fine);
    }
  }

  /** Neither does refining the mantissa at five figures. */
  lemma MantissaNested(px: nat, side: Side, p: Precision)
    requires p in {FIVE_BY_2, FIVE_BY_5}
    ensures Bucket(Bucket(px, side, FIVE), side, p) == Bucket(px, side, p)
  {
    MultipleOf(Step(FIVE, NumDigits(px)), Mantissa(p));
    BucketNested(px, side, FIVE, p);
  }

  lemma FifthNests(p: Precision, d: nat)
    requires p in {FOUR, THREE, TWO} && d > p.figs.value
    ensures Nests(FIVE_BY_5, p, d)
  {
    var e := if d > 5 then d - 5 else 0;
    assert Pow10(e + 1) == 2 * (5 * Pow10(e));
    hide Pow10;
    MultipleOf(5 * Pow10(e), 2);
    Pow10Divides(e + 1, d - p.figs.value);
    DividesTrans(Step(FIVE_BY_5, d), Pow10(e + 1), Step(p, d));
  }

  /** Prices the mantissa-5 view can stand in for at p's figures: longer than p keeps, or multiples of 5. */
  predicate Passes(px: nat, p: Precision)
    requires p.figs.Some?
  {
    NumDigits(px) > p.figs.value || px % 5 == 0
  }

  /** Rounding through the five-figure, mantissa-5 view gives the direct bucket exactly for such prices. */
  lemma ThroughMantissaFive(px: nat, side: Side, p: Precision)
    requires p in {FOUR, THREE, TWO}
    ensures Bucket(Bucket(px, side, FIVE_BY_5), side, p) == Bucket(px, side, p) <==> Passes(px, p)
    ensures Bucket(Bucket(px, side, FIVE_BY_5), side, p) % 5 == 0
  {
    var d, x := NumDigits(px), Bucket(px, side, FIVE_BY_5);
    BucketRange(px, side, FIVE_BY_5);
    if d > p.figs.value {
      FifthNests(p, d);
      BucketNested(px, side, FIVE_BY_5, p);
      StepByTens(px, side, p);
    } else {
      assert Step(FIVE_BY_5, d) == 5;
      FloorFacts(px, 5);
      CeilFacts(px, 5);
      ShortPrice(px, side, p);
      assert Bucket(x, side, p) == x by {
        if x == Pow10(d) {
          PowerIsBucket(d, side, p);
        } else {
          AtMostDigits(x, d);
          ShortPrice(x, side, p);
        }
      }
      if px % 5 == 0 {
        Fixed(px, 5);
      }
    }
  }

  lemma AtMostDigits(x: nat, d: nat)
    requires d >= 1 && x < Pow10(d)
    ensures NumDigits(x) <= d
  {
    Pow10Monotone(d - 1, d);
    DigitsUnique(Pow10(d) - 1, d);
    DigitsMonotone(x, Pow10(d) - 1);
  }

  lemma StepByTens(px: nat, side: Side, p: Precision)
    requires p in {FOUR, THREE, TWO} && NumDigits(px) > p.figs.value
    ensures Bucket(px, side, p) % 5 == 0
  {
    var d := NumDigits(px);
    var inc := Step(p, d);
    assert Pow10(1) == 10 && inc == Pow10(d - p.figs.value);
    Pow10Divides(1, d - p.figs.value);
    FloorFacts(px, inc);
    CeilFacts(px, inc);
    DividesTrans(5, 10, inc);
    DividesTrans(5, inc, Bucket(px, side, p));
  }

  // ----- whole views

  lemma UnitsOrdered(s: seq<Order>, side: Side)
    requires Sorted(s, side)
    ensures Ordered(Units(s), side)
  {
  }

  /** Aggregating a direct view once more, when no price is affected by the detour. */
  lemma DirectTwice(s: seq<Order>, side: Side, fine: Precision, coarse: Precision)
    requires Sorted(s, side) && Supported(fine) && Supported(coarse)
    requires forall i :: 0 <= i < |s| ==>
               Bucket(Bucket(s[i].px, side, fine), side, coarse) == Bucket(s[i].px, side, coarse)
    ensures Group(DirectSide(s, side, fine), side, coarse) == DirectSide(s, side, coarse)
    ensures Ordered(DirectSide(s, side, fine), side)
  {
    hide Bucket, Group;
    UnitsOrdered(s, side);
    GroupTwice(Units(s), side, fine, coarse);
  }

  ghost predicate SidesSorted(b: Book) {
    Sorted(b.bids, Bid) && Sorted(b.asks, Ask)
  }

  /** All five-figure views, cascaded or direct, are the same for every book. */
  lemma FiveFigureViewsDirect(b: Book, p: Precision)
    requires SidesSorted(b) && p in {RAW, FIVE, FIVE_BY_2, FIVE_BY_5}
    ensures Cascaded(b, p) == Direct(b, p)
  {
    hide Bucket, Group;
    FiveDirect(b);
    if p == FIVE_BY_2 || p == FIVE_BY_5 {
      forall px, side ensures Bucket(Bucket(px, side, FIVE), side, p) == Bucket(px, side, p) {
        MantissaNested(px, side, p);
      }
      DirectTwice(b.bids, Bid, FIVE, p);
      DirectTwice(b.asks, Ask, FIVE, p);
    }
  }

  lemma FiveDirect(b: Book)
    requires SidesSorted(b)
    ensures Cascaded(b, FIVE) == Direct(b, FIVE)
  {
    hide Group;
    assert Cascaded(b, RAW) == Direct(b, RAW);
    DirectTwice(b.bids, Bid, RAW, FIVE);
    DirectTwice(b.asks, Ask, RAW, FIVE);
  }

  /** The coarser views are, in effect, all derived from the mantissa-5 view. */
  lemma CoarseFromMantissaFive(b: Book, p: Precision)
    requires SidesSorted(b) && p in {FOUR, THREE, TWO}
    ensures Cascaded(b, p) == Coarsen(Direct(b, FIVE_BY_5), p)
    decreases Rank(p)
  {
    hide Bucket, Group;
    FiveFigureViewsDirect(b, FIVE_BY_5);
    if p != FOUR {
      var q := Source(p);
      CoarseFromMantissaFive(b, q);
      var v := Direct(b, FIVE_BY_5);
      forall px, side ensures Bucket(Bucket(px, side, q), side, p) == Bucket(px, side, p) {
        OneFigureLess(px, side, q, p);
      }
      DirectOrdered(b, FIVE_BY_5);
      GroupTwice(v.bids, Bid, q, p);
      GroupTwice(v.asks, Ask, q, p);
    }
  }

  lemma DirectOrdered(b: Book, p: Precision)
    requires SidesSorted(b) && Supported(p)
    ensures Ordered(Direct(b, p).bids, Bid) && Ordered(Direct(b, p).asks, Ask)
    ensures IsGrouping(Units(b.bids), Direct(b, p).bids, Bid, p) && IsGrouping(Units(b.asks), Direct(b, p).asks, Ask, p)
  {
    hide Bucket, Group;
    UnitsOrdered(b.bids, Bid);
    UnitsOrdered(b.asks, Ask);
    GroupIsGrouping(Units(b.bids), Bid, p);
    GroupIsGrouping(Units(b.asks), Ask, p);
  }

  ghost predicate AllPass(s: seq<Order>, p: Precision)
    requires p.figs.Some?
  {
    forall i :: 0 <= i < |s| ==> Passes(s[i].px, p)
  }

  /** One side: the detour over the mantissa-5 view is harmless exactly when every price passes. */
  lemma SideThroughMantissaFive(s: seq<Order>, side: Side, p: Precision)
    requires Sorted(s, side) && p in {FOUR, THREE, TWO}
    ensures Group(DirectSide(s, side, FIVE_BY_5), side, p) == DirectSide(s, side, p) <==> AllPass(s, p)
  {
    hide Bucket, Group, NumDigits;
    var u := Units(s);
    UnitsOrdered(s, side);
    forall i | 0 <= i < |s|
      ensures Bucket(Bucket(s[i].px, side, FIVE_BY_5), side, p) == Bucket(s[i].px, side, p) <==> Passes(s[i].px, p)
    {
      ThroughMantissaFive(s[i].px, side, p);
    }
    if AllPass(s, p) {
      DirectTwice(s, side, FIVE_BY_5, p);
    } else {
      var i :| 0 <= i < |s| && !Passes(s[i].px, p);
      OddPriceListed(u, i, side, p);
      OddPriceLost(u, side, p, u[i].px);
    }
  }

  /** A price that does not pass shows up unrounded in the direct view. */
  lemma OddPriceListed(u: seq<L2Level>, i: nat, side: Side, p: Precision)
    requires Ordered(u, side) && i < |u| && p in {FOUR, THREE, TWO} && !Passes(u[i].px, p)
    ensures Listed(Group(u, side, p), u[i].px) && u[i].px % 5 != 0
  {
    hide Bucket, Group, NumDigits;
    GroupIsGrouping(u, side, p);
    ShortPrice(u[i].px, side, p);
    assert Listed(Group(u, side, p), Bucket(u[i].px, side, p));
  }

  /** Whereas every price that came through the mantissa-5 view is a multiple of five. */
  lemma OddPriceLost(u: seq<L2Level>, side: Side, p: Precision, px: nat)
    requires Ordered(u, side) && p in {FOUR, THREE, TWO} && px % 5 != 0
    ensures !Listed(Group(Group(u, side, FIVE_BY_5), side, p), px)
  {
    hide Bucket, Group, NumDigits;
    var g := Group(u, side, FIVE_BY_5);
    GroupIsGrouping(u, side, FIVE_BY_5);
    GroupIsGrouping(g, side, p);
    var out := Group(g, side, p);
    forall k | 0 <= k < |out| ensures out[k].px % 5 == 0 {
      assert HasBucket(g, side, p, out[k].px);
      var i :| 0 <= i < |g| && Bucket(g[i].px, side, p) == out[k].px;
      assert HasBucket(u, side, FIVE_BY_5, g[i].px);
      var j :| 0 <= j < |u| && Bucket(u[j].px, side, FIVE_BY_5) == g[i].px;
      ThroughMantissaFive(u[j].px, side, p);
    }
  }

  /**
   The two- to four-figure views equal direct aggregation exactly when every resting price has
   more raw digits than figures kept or is a multiple of five; so always from five digits on.
   */
  lemma CoarseViewsDirectIff(b: Book, p: Precision)
    requires SidesSorted(b) && p in {FOUR, THREE, TWO}
    ensures Cascaded(b, p) == Direct(b, p) <==> AllPass(b.bids, p) && AllPass(b.asks, p)
  {
    hide Bucket, Group, Cascaded;
    CoarseFromMantissaFive(b, p);
    SideThroughMantissaFive(b.bids, Bid, p);
    SideThroughMantissaFive(b.asks, Ask, p);
  }

  lemma CascadedOrdered(b: Book, p: Precision)
    requires SidesSorted(b) && Offered(p)
    ensures Ordered(Cascaded(b, p).bids, Bid) && Ordered(Cascaded(b, p).asks, Ask)
    decreases Rank(p)
  {
    if p == RAW {
      DirectOrdered(b, RAW);
    } else {
      var v := Cascaded(b, Source(p));
      CascadedOrdered(b, Source(p));
      assert Cascaded(b, p) == Coarsen(v, p);
      hide Cascaded, Group, Bucket;
      GroupIsGrouping(v.bids, Bid, p);
      GroupIsGrouping(v.asks, Ask, p);
    }
  }
}
