/** Computing the views from the stored book: the level walk and the cascade of precisions. */
module BookViews {
  import opened Prelude
  import opened Orders
  import opened Buckets
  import opened Aggregation
  import opened FlatBook
  import opened Views
  import opened LevelBook
  import opened SlabList

  function AddSize(acc: nat, o: Order): nat {
    acc + o.sz
  }

  function AddOne(acc: nat, o: Order): nat {
    acc + 1
  }

  lemma {:induction false} FoldIsTotal(s: seq<Order>)
    ensures FoldLeft(0, s, AddSize) == Total(s)
    ensures FoldLeft(0, s, AddOne) == |s|
  {
    if s != [] {
      var t, o := s[..|s| - 1], s[|s| - 1];
      FoldIsTotal(t);
      TotalConcat(t, [o]);
      assert t + [o] == s && [o][1..] == [];
    }
  }

  /** Size and number of the orders at one price are its level's. */
  lemma {:induction false} UnitTotals(s: seq<Order>, side: Side, px: nat)
    ensures SizeAt(Units(s), side, RAW, px) == Total(LevelAt(s, px))
    ensures CountAt(Units(s), side, RAW, px) == |LevelAt(s, px)|
    ensures HasBucket(Units(s), side, RAW, px) <==> LevelAt(s, px) != []
  {
    hide Units, SizeAt, CountAt, HasBucket, LevelAt, Total, Bucket;
    if s == [] {
      NoUnits(side, px);
    } else {
      var t, o := s[..|s| - 1], s[|s| - 1];
      UnitTotals(t, side, px);
      RawIsIdentity(o.px, side);
      TotalOne(o);
      assert t + [o] == s;
      LevelAtConcat(t, [o], px);
      LevelAtOne(o, px);
      TotalConcat(LevelAt(t, px), LevelAt([o], px));
      UnitsAppend(t, o);
      ExtendSizes(Units(t), side, RAW, L2Level(o.px, o.sz, 1), px);
    }
  }

  lemma NoUnits(side: Side, px: nat)
    ensures SizeAt(Units([]), side, RAW, px) == Total(LevelAt([], px))
    ensures CountAt(Units([]), side, RAW, px) == |LevelAt([], px)|
    ensures !HasBucket(Units([]), side, RAW, px) && LevelAt([], px) == []
  {
    assert Units([]) == [];
    EmptyTotals(side, RAW, px);
  }

  lemma UnitsAppend(s: seq<Order>, o: Order)
    ensures Units(s + [o]) == Units(s) + [L2Level(o.px, o.sz, 1)]
  {
  }

  lemma TotalOne(o: Order)
    ensures Total([o]) == o.sz && Total([]) == 0
  {
    assert [o][1..] == [];
  }

  /** One raw level per price. */
  function PerPrice(s: seq<Order>, ps: seq<nat>): (r: seq<L2Level>)
    ensures |r| == |ps|
    ensures forall i {:trigger r[i]} :: 0 <= i < |ps| ==>
              r[i] == L2Level(ps[i], Total(LevelAt(s, ps[i])), |LevelAt(s, ps[i])|)
  {
    seq(|ps|, i requires 0 <= i < |ps| => L2Level(ps[i], Total(LevelAt(s, ps[i])), |LevelAt(s, ps[i])|))
  }

  lemma PerPriceIsRaw(s: seq<Order>, side: Side, ps: seq<nat>)
    requires Sorted(s, side) && Ranked(ps, side)
    requires forall p :: p in ps <==> LevelAt(s, p) != []
    ensures PerPrice(s, ps) == DirectSide(s, side, RAW)
  {
    hide LevelAt, SizeAt, CountAt, Group;
    var r, u := PerPrice(s, ps), Units(s);
    UnitsOrdered(s, side);
    GroupIsGrouping(u, side, RAW);
    forall i | 0 <= i < |r|
      ensures HasBucket(u, side, RAW, r[i].px) && r[i].sz == SizeAt(u, side, RAW, r[i].px)
      ensures r[i].n == CountAt(u, side, RAW, r[i].px)
    {
      assert ps[i] in ps;
      UnitTotals(s, side, ps[i]);
    }
    forall i | 0 <= i < |u| ensures Listed(r, Bucket(u[i].px, side, RAW)) {
      LevelAtFacts(s, u[i].px);
      assert u[i].px == s[i].px;
      var k :| 0 <= k < |ps| && ps[k] == u[i].px;
      assert r[k].px == u[i].px;
    }
    GroupingUnique(u, r, Group(u, side, RAW), side, RAW);
  }

  /** Walks the levels in priority order, aggregating as it goes. */
  method MapToL2Levels(m: map<nat, Level>, side: Side, limit: Option<nat>, p: Precision, ghost s: seq<Order>)
    returns (out: seq<L2Level>)
    requires Represents(m, s, side) && Supported(p)
    ensures out == Take(DirectSide(s, side, p), limit)
  {
    hide LevelAt, Group, LinkedList.Valid, LinkedList.Entries, Total, LevelUnique, InProgress, Bucket;
    if limit == Some(0) {
      return [];
    }
    var ps := InPriority(m.Keys, side);
    ghost var raw := PerPrice(s, ps);
    RawAggregates(m, s, side, ps, p);
    var cur, done := None, [];
    StartProgress(raw, side, p, limit);
    var i := 0;
    while i < |ps|
      invariant 0 <= i <= |ps| && InProgress(raw, i, side, p, limit, cur, done)
    {
      assert ps[i] in ps;
      var list := m[ps[i]];
      ValuesOfKeyed(LevelAt(s, ps[i]));
      FoldIsTotal(LevelAt(s, ps[i]));
      var sz := list.Fold(0, AddSize);
      var n := list.Fold(0, AddOne);
      var stop;
      stop, cur, done := BuildL2Level(cur, done, limit, p, side, L2Level(ps[i], sz, n), raw, i);
      if stop {
        return WithCurrent(done, cur);
      }
      i := i + 1;
    }
    EndProgress(raw, side, p, limit, cur, done);
    out := WithCurrent(done, cur);
  }

  lemma RawAggregates(m: map<nat, Level>, s: seq<Order>, side: Side, ps: seq<nat>, p: Precision)
    requires Represents(m, s, side) && Ranked(ps, side) && Supported(p)
    requires forall q :: q in m.Keys <==> q in ps
    ensures Ordered(PerPrice(s, ps), side)
    ensures Group(PerPrice(s, ps), side, p) == DirectSide(s, side, p)
  {
    hide LevelAt, Group, Holds, Bucket;
    forall q ensures q in ps <==> LevelAt(s, q) != [] {
      LevelAtFacts(s, q);
    }
    PerPriceIsRaw(s, side, ps);
    forall px ensures Bucket(Bucket(px, side, RAW), side, p) == Bucket(px, side, p) {
      RawIsIdentity(px, side);
    }
    DirectTwice(s, side, RAW, p);
  }

  lemma RawIsIdentity(px: nat, side: Side)
    ensures Bucket(px, side, RAW) == px
  {
  }

  lemma StartProgress(raw: seq<L2Level>, side: Side, p: Precision, limit: Option<nat>)
    requires Supported(p) && limit != Some(0)
    ensures InProgress(raw, 0, side, p, limit, None, [])
  {
  }

  lemma EndProgress(raw: seq<L2Level>, side: Side, p: Precision, limit: Option<nat>, cur: Option<L2Level>,
                    done: seq<L2Level>)
    requires Supported(p) && InProgress(raw, |raw|, side, p, limit, cur, done)
    ensures WithCurrent(done, cur) == Take(Group(raw, side, p), limit)
  {
    assert raw[..|raw|] == raw;
    hide Group;
  }

  method ToL2Snapshot(b: OrderBook, limit: Option<nat>, p: Precision) returns (v: View)
    requires b.Valid() && Supported(p)
    ensures limit.None? ==> v == Direct(b.book, p)
    ensures limit.Some? ==> v == Truncate(Direct(b.book, p), limit.value)
  {
    hide Represents, Group;
    var bs := MapToL2Levels(b.bids, Bid, limit, p, b.book.bids);
    var as_ := MapToL2Levels(b.asks, Ask, limit, p, b.book.asks);
    v := View(bs, as_);
  }

  method CoarsenView(v: View, p: Precision) returns (r: View)
    requires Supported(p) && Ordered(v.bids, Bid) && Ordered(v.asks, Ask)
    ensures r == Coarsen(v, p)
  {
    hide Group;
    var bs := L2LevelsToL2Levels(v.bids, Bid, None, p);
    var as_ := L2LevelsToL2Levels(v.asks, Ask, None, p);
    r := View(bs, as_);
  }

  // ----- the cascade

  const ORDER := [RAW, FIVE, FIVE_BY_2, FIVE_BY_5, FOUR, THREE, TWO]

  /** The first k entries of the table the loop builds. */
  ghost predicate Tabulated(entries: seq<(Precision, View)>, b: Book) {
    && |entries| <= |ORDER|
    && forall i :: 0 <= i < |entries| ==> Offered(ORDER[i]) && entries[i] == (ORDER[i], Cascaded(b, ORDER[i]))
  }

  lemma CascadeStep(b: Book, p: Precision)
    requires Offered(p) && p != RAW
    ensures Supported(p) && Offered(Source(p)) && Cascaded(b, p) == Coarsen(Cascaded(b, Source(p)), p)
  {
  }

  /** Derives the next view from the entry `back` places from the end. */
  method AddNewView(entries: seq<(Precision, View)>, p: Precision, back: nat, ghost b: Book)
    returns (entries': seq<(Precision, View)>)
    requires SidesSorted(b) && Tabulated(entries, b)
    requires 1 <= back <= |entries| < |ORDER| && ORDER[|entries|] == p && p != RAW
    requires Source(p) == ORDER[|entries| - back]
    ensures |entries'| == |entries| + 1 && Tabulated(entries', b)
  {
    hide Cascaded;
    var v := entries[|entries| - back].1;
    CascadeStep(b, p);
    CascadedOrdered(b, Source(p));
    var r := CoarsenView(v, p);
    entries' := entries + [(p, r)];
  }

  /** All seven views of one book, built the way a refresh builds them. */
  method ComputeViews(book: OrderBook) returns (views: map<Precision, View>)
    requires book.Valid()
    ensures views == ViewsOf(book.book)
  {
    hide Cascaded, Direct;
    ghost var b := book.book;
    assert SidesSorted(b);
    var raw := ToL2Snapshot(book, None, RAW);
    var entries := [(RAW, raw)];
    RawView(b);
    var figs := 5;
    while figs >= 2
      invariant 1 <= figs <= 5
      invariant |entries| == (if figs == 5 then 1 else 8 - figs)
      invariant Tabulated(entries, b)
    {
      if figs == 5 {
        var mantissas: seq<Option<nat>> := [None, Some(2), Some(5)];
        for i := 0 to 3
          invariant |entries| == 1 + i && Tabulated(entries, b)
        {
          if mantissas[i] == Some(5) {
            // the mantissa-2 view is no superset of this one
            entries := AddNewView(entries, Precision(Some(figs), mantissas[i]), 2, b);
          } else {
            entries := AddNewView(entries, Precision(Some(figs), mantissas[i]), 1, b);
          }
        }
      } else {
        entries := AddNewView(entries, Precision(Some(figs), None), 1, b);
      }
      figs := figs - 1;
    }
    views := map[];
    for i := 0 to |entries|
      invariant views == map p | p in ORDER[..i] :: Cascaded(b, p)
    {
      views := views[entries[i].0 := entries[i].1];
    }
    assert ORDER[..7] == ORDER;
    assert forall p :: p in ORDER <==> p in OFFERED;
  }

  lemma RawView(b: Book)
    ensures Cascaded(b, RAW) == Direct(b, RAW)
  {
  }
}
