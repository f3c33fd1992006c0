/**
 Aggregating a side into price levels. The one-pass loop compares each raw price with the current
 bucket price only; `IsGrouping` says what the result must be without following the loop.
 */
module Aggregation {
  import opened Prelude
  import opened Orders
  import opened Buckets

  datatype L2Level = L2Level(px: nat, sz: nat, n: nat)

  function SizeAt(s: seq<L2Level>, side: Side, p: Precision, b: nat): nat
    requires Supported(p)
  {
    if s == [] then 0
    else (if Bucket(s[|s| - 1].px, side, p) == b then s[|s| - 1].sz else 0) + SizeAt(s[..|s| - 1], side, p, b)
  }

  function CountAt(s: seq<L2Level>, side: Side, p: Precision, b: nat): nat
    requires Supported(p)
  {
    if s == [] then 0
    else (if Bucket(s[|s| - 1].px, side, p) == b then s[|s| - 1].n else 0) + CountAt(s[..|s| - 1], side, p, b)
  }

  ghost predicate HasBucket(s: seq<L2Level>, side: Side, p: Precision, b: nat)
    requires Supported(p)
  {
    exists i :: 0 <= i < |s| && Bucket(s[i].px, side, p) == b
  }

  ghost predicate Listed(out: seq<L2Level>, b: nat) {
    exists k :: 0 <= k < |out| && out[k].px == b
  }

  /** Best price first; equal prices may repeat. */
  ghost predicate Ordered(s: seq<L2Level>, side: Side) {
    forall i, j :: 0 <= i < j < |s| ==> !Better(side, s[j].px, s[i].px)
  }

  ghost predicate StrictlyOrdered(s: seq<L2Level>, side: Side) {
    forall i, j :: 0 <= i < j < |s| ==> Better(side, s[i].px, s[j].px)
  }

  /** One level per distinct bucket, best first, holding exactly the sizes and orders that fall in it. */
  ghost predicate IsGrouping(s: seq<L2Level>, out: seq<L2Level>, side: Side, p: Precision)
    requires Supported(p)
  {
    && StrictlyOrdered(out, side)
    && (forall i :: 0 <= i < |out| ==>
          && HasBucket(s, side, p, out[i].px)
          && out[i].sz == SizeAt(s, side, p, out[i].px)
          && out[i].n == CountAt(s, side, p, out[i].px))
    && (forall i :: 0 <= i < |s| ==> Listed(out, Bucket(s[i].px, side, p)))
  }

  /** Appends one raw level to an aggregation: into the last bucket when it is the same, else as a new one. */
  function Extend(g: seq<L2Level>, x: L2Level, b: nat): seq<L2Level> {
    if g != [] && g[|g| - 1].px == b
    then g[|g| - 1 := L2Level(b, x.sz + g[|g| - 1].sz, g[|g| - 1].n + x.n)]
    else g + [L2Level(b, x.sz, x.n)]
  }

  function Group(s: seq<L2Level>, side: Side, p: Precision): seq<L2Level>
    requires Supported(p)
  {
    if s == [] then []
    else Extend(Group(s[..|s| - 1], side, p), s[|s| - 1], Bucket(s[|s| - 1].px, side, p))
  }

  /** The first n levels, or all of them. */
  function Take<T>(s: seq<T>, n: Option<nat>): seq<T> {
    if n.Some? && n.value < |s| then s[..n.value] else s
  }

  // ----- the reference description determines the result

  lemma SameFirst(s: seq<L2Level>, t: seq<L2Level>, side: Side)
    requires StrictlyOrdered(s, side) && StrictlyOrdered(t, side) && s != [] && t != []
    requires s[0] in t && t[0] in s
    ensures s[0] == t[0]
  {
    var i :| 0 <= i < |t| && t[i] == s[0];
    var j :| 0 <= j < |s| && s[j] == t[0];
    assert i > 0 ==> Better(side, t[0].px, t[i].px);
    assert j > 0 ==> Better(side, s[0].px, s[j].px);
  }

  lemma TailIncluded(s: seq<L2Level>, t: seq<L2Level>, side: Side, i: nat)
    requires StrictlyOrdered(s, side) && t != [] && 1 <= i < |s| && s[0] == t[0] && s[i] in t
    ensures s[i] in t[1..]
  {
    var k :| 0 <= k < |t| && t[k] == s[i];
    assert Better(side, s[0].px, s[i].px);
    assert t[1..][k - 1] == s[i];
  }

  lemma TailsIncluded(s: seq<L2Level>, t: seq<L2Level>, side: Side)
    requires StrictlyOrdered(s, side) && StrictlyOrdered(t, side) && s != [] && t != [] && s[0] == t[0]
    requires forall i :: 0 <= i < |s| ==> s[i] in t
    ensures forall k :: 0 <= k < |s[1..]| ==> s[1..][k] in t[1..]
  {
    hide StrictlyOrdered;
    forall k | 0 <= k < |s[1..]| ensures s[1..][k] in t[1..] {
      TailIncluded(s, t, side, k + 1);
    }
  }

  lemma OrderedRest(s: seq<L2Level>, side: Side)
    requires StrictlyOrdered(s, side) && s != []
    ensures StrictlyOrdered(s[1..], side)
  {
  }

  lemma {:induction false} StrictlyOrderedSame(s: seq<L2Level>, t: seq<L2Level>, side: Side)
    requires StrictlyOrdered(s, side) && StrictlyOrdered(t, side)
    requires forall i :: 0 <= i < |s| ==> s[i] in t
    requires forall i :: 0 <= i < |t| ==> t[i] in s
    ensures s == t
    decreases |s|
  {
    hide StrictlyOrdered;
    FirstIn(s);
    FirstIn(t);
    if s != [] && t != [] {
      SameFirst(s, t, side);
      TailsIncluded(s, t, side);
      TailsIncluded(t, s, side);
      OrderedRest(s, side);
      OrderedRest(t, side);
      StrictlyOrderedSame(s[1..], t[1..], side);
      assert s == [s[0]] + s[1..] && t == [t[0]] + t[1..];
    }
  }

  lemma GroupingIncluded(s: seq<L2Level>, out: seq<L2Level>, out': seq<L2Level>, side: Side, p: Precision, i: nat)
    requires Supported(p) && IsGrouping(s, out, side, p) && IsGrouping(s, out', side, p) && i < |out|
    ensures out[i] in out'
  {
    assert HasBucket(s, side, p, out[i].px);
    var j :| 0 <= j < |s| && Bucket(s[j].px, side, p) == out[i].px;
    assert Listed(out', Bucket(s[j].px, side, p));
    var k :| 0 <= k < |out'| && out'[k].px == Bucket(s[j].px, side, p);
    assert out'[k] == out[i];
  }

  lemma GroupingUnique(s: seq<L2Level>, out: seq<L2Level>, out': seq<L2Level>, side: Side, p: Precision)
    requires Supported(p) && IsGrouping(s, out, side, p) && IsGrouping(s, out', side, p)
    ensures out == out'
  {
    forall i | 0 <= i < |out| ensures out[i] in out' {
      GroupingIncluded(s, out, out', side, p, i);
    }
    forall i | 0 <= i < |out'| ensures out'[i] in out {
      GroupingIncluded(s, out', out, side, p, i);
    }
    StrictlyOrderedSame(out, out', side);
  }

  // ----- grouping ordered input

  /** For ordered input, comparing with the current bucket price decides bucket equality. */
  lemma SameBucketTest(prev: nat, px: nat, side: Side, p: Precision)
    requires Supported(p) && !Better(side, px, prev)
    ensures var b := Bucket(prev, side, p);
            && (Better(side, b, px) <==> Bucket(px, side, p) != b)
            && (Bucket(px, side, p) != b ==> Better(side, b, Bucket(px, side, p)))
  {
    var b := Bucket(prev, side, p);
    hide Bucket;
    BucketIdempotent(prev, side, p);
    BucketTowards(px, side, p);
    if side.Ask? {
      BucketMonotone(prev, px, side, p);
      if px <= b {
        BucketMonotone(px, b, side, p);
      }
    } else {
      BucketMonotone(px, prev, side, p);
      if b <= px {
        BucketMonotone(b, px, side, p);
      }
    }
  }

  /** Rounding never moves a price ahead in priority. */
  lemma BucketTowards(px: nat, side: Side, p: Precision)
    requires Supported(p)
    ensures if side.Ask? then px <= Bucket(px, side, p) else Bucket(px, side, p) <= px
  {
    hide NumDigits, Pow10;
    BucketRange(px, side, p);
  }

  /** The aggregation's last bucket is that of the last raw level. */
  lemma GroupLast(s: seq<L2Level>, side: Side, p: Precision)
    requires Supported(p) && s != []
    ensures var g := Group(s, side, p);
            g != [] && g[|g| - 1].px == Bucket(s[|s| - 1].px, side, p)
  {
    hide Bucket;
  }

  lemma ExtendSizes(s: seq<L2Level>, side: Side, p: Precision, x: L2Level, b: nat)
    requires Supported(p)
    ensures SizeAt(s + [x], side, p, b) == SizeAt(s, side, p, b) + (if Bucket(x.px, side, p) == b then x.sz else 0)
    ensures CountAt(s + [x], side, p, b) == CountAt(s, side, p, b) + (if Bucket(x.px, side, p) == b then x.n else 0)
    ensures HasBucket(s + [x], side, p, b) <==> HasBucket(s, side, p, b) || Bucket(x.px, side, p) == b
  {
    hide Bucket;
    var t := s + [x];
    assert t[..|t| - 1] == s && t[|t| - 1] == x;
    if HasBucket(s, side, p, b) {
      var i :| 0 <= i < |s| && Bucket(s[i].px, side, p) == b;
      assert t[i] == s[i];
    }
  }

  lemma {:induction false} AbsentBucket(s: seq<L2Level>, side: Side, p: Precision, b: nat)
    requires Supported(p) && !HasBucket(s, side, p, b)
    ensures SizeAt(s, side, p, b) == 0 && CountAt(s, side, p, b) == 0
  {
    hide Bucket;
    if s != [] {
      var t := s[..|s| - 1];
      assert forall i :: 0 <= i < |t| ==> t[i] == s[i];
      AbsentBucket(t, side, p, b);
    }
  }

  lemma ExtendGrouping(s: seq<L2Level>, g: seq<L2Level>, x: L2Level, side: Side, p: Precision)
    requires Supported(p) && IsGrouping(s, g, side, p)
    requires if s == [] then g == [] else g != [] && g[|g| - 1].px == Bucket(s[|s| - 1].px, side, p)
    requires s != [] ==> !Better(side, x.px, s[|s| - 1].px)
    ensures IsGrouping(s + [x], Extend(g, x, Bucket(x.px, side, p)), side, p)
  {
    hide Bucket, SizeAt, CountAt, HasBucket;
    var t, b := s + [x], Bucket(x.px, side, p);
    var g' := Extend(g, x, b);
    if s != [] {
      SameBucketTest(s[|s| - 1].px, x.px, side, p);
    }
    ExtendSizes(s, side, p, x, b);
    forall i | 0 <= i < |g| ensures g[i].px != b ==>
        g[i].sz == SizeAt(t, side, p, g[i].px) && g[i].n == CountAt(t, side, p, g[i].px)
          && HasBucket(t, side, p, g[i].px)
    {
      ExtendSizes(s, side, p, x, g[i].px);
    }
    assert StrictlyOrdered(g', side);
    if s == [] || g[|g| - 1].px != b {
      NewBucketAbsent(s, g, side, p, b);
      AbsentBucket(s, side, p, b);
    }
    forall i | 0 <= i < |g'|
      ensures HasBucket(t, side, p, g'[i].px) && g'[i].sz == SizeAt(t, side, p, g'[i].px)
      ensures g'[i].n == CountAt(t, side, p, g'[i].px)
    {
      if i < |g'| - 1 {
        assert g'[i] == g[i] && g'[i].px != b;
      } else {
        assert g'[i].px == b;
      }
    }
    forall i | 0 <= i < |t| ensures Listed(g', Bucket(t[i].px, side, p)) {
      if i < |s| {
        assert Listed(g, Bucket(s[i].px, side, p));
        var k :| 0 <= k < |g| && g[k].px == Bucket(s[i].px, side, p);
        assert g'[k].px == g[k].px;
      } else {
        assert g'[|g'| - 1].px == b;
      }
    }
  }

  lemma NewBucketAbsent(s: seq<L2Level>, g: seq<L2Level>, side: Side, p: Precision, b: nat)
    requires Supported(p) && IsGrouping(s, g, side, p)
    requires g == [] || Better(side, g[|g| - 1].px, b)
    ensures !HasBucket(s, side, p, b)
  {
    hide Bucket, SizeAt, CountAt;
    forall k | 0 <= k < |g| ensures g[k].px != b {
      if k < |g| - 1 {
        assert Better(side, g[k].px, g[|g| - 1].px);
      }
    }
  }

  /** The one-pass aggregation of an ordered side is its grouping. */
  lemma {:induction false} GroupIsGrouping(s: seq<L2Level>, side: Side, p: Precision)
    requires Supported(p) && Ordered(s, side)
    ensures IsGrouping(s, Group(s, side, p), side, p)
  {
    hide Bucket, SizeAt, CountAt;
    if s != [] {
      var t, x := s[..|s| - 1], s[|s| - 1];
      GroupIsGrouping(t, side, p);
      if t != [] {
        GroupLast(t, side, p);
      }
      assert t + [x] == s;
      ExtendGrouping(t, Group(t, side, p), x, side, p);
    }
  }

  // ----- the loop

  /** Finished levels and the one being built. */
  function WithCurrent(done: seq<L2Level>, cur: Option<L2Level>): seq<L2Level> {
    if cur.None? then done else done + [cur.value]
  }

  /** Loop state after the first i raw levels: the aggregation so far, and still room for one more level. */
  ghost predicate InProgress(s: seq<L2Level>, i: nat, side: Side, p: Precision, limit: Option<nat>,
                             cur: Option<L2Level>, done: seq<L2Level>)
    requires Supported(p)
  {
    && i <= |s|
    && WithCurrent(done, cur) == Group(s[..i], side, p)
    && (cur.None? <==> i == 0)
    && (limit.Some? ==> |done| < limit.value)
  }

  method BuildL2Level(cur: Option<L2Level>, done: seq<L2Level>, limit: Option<nat>, p: Precision, side: Side,
                      level: L2Level,
                      ghost s: seq<L2Level>, ghost i: nat)
    returns (stop: bool, cur': Option<L2Level>, done': seq<L2Level>)
    requires Supported(p) && Ordered(s, side)
    requires i < |s| && s[i] == level && InProgress(s, i, side, p, limit, cur, done)
    ensures !stop ==> InProgress(s, i + 1, side, p, limit, cur', done')
    ensures stop ==> WithCurrent(done', cur') == Take(Group(s, side, p), limit)
  {
    hide Bucket, Group;
    NextGroup(s, i, side, p);
    cur', done' := cur, done;
    var newBucket := cur.None? || Better(side, cur.value.px, level.px);
    if newBucket {
      var b := Bucket(level.px, side, p);
      done', cur' := WithCurrent(done, cur), None;
      if limit == Some(|done'|) {
        PrefixSettled(s, i, side, p);
        return true, cur', done';
      }
      cur' := Some(L2Level(b, level.sz, level.n));
    } else {
      cur' := Some(cur.value.(sz := level.sz + cur.value.sz, n := cur.value.n + level.n));
    }
    stop := false;
  }

  /** What one more raw level does to the aggregation, and how the price comparison tells. */
  lemma NextGroup(s: seq<L2Level>, i: nat, side: Side, p: Precision)
    requires Supported(p) && Ordered(s, side) && i < |s|
    ensures var g, b := Group(s[..i], side, p), Bucket(s[i].px, side, p);
            && Group(s[..i + 1], side, p) == Extend(g, s[i], b)
            && (g == [] <==> i == 0)
            && (g != [] ==> (Better(side, g[|g| - 1].px, s[i].px) <==> g[|g| - 1].px != b))
  {
    hide Bucket;
    assert s[..i + 1][..i] == s[..i];
    if i > 0 {
      GroupLast(s[..i], side, p);
      SameBucketTest(s[i - 1].px, s[i].px, side, p);
    }
  }

  /** Once a new bucket starts, the earlier levels are final. */
  lemma PrefixSettled(s: seq<L2Level>, i: nat, side: Side, p: Precision)
    requires Supported(p) && i < |s|
    requires var g := Group(s[..i], side, p); g != [] ==> g[|g| - 1].px != Bucket(s[i].px, side, p)
    ensures var g, all := Group(s[..i], side, p), Group(s, side, p);
            |g| < |all| && all[..|g|] == g
  {
    PrefixStays(s, i, |s|, side, p);
    assert s[..|s|] == s;
  }

  lemma {:induction false} PrefixStays(s: seq<L2Level>, i: nat, j: nat, side: Side, p: Precision)
    requires Supported(p) && i < j <= |s|
    requires var g := Group(s[..i], side, p); g != [] ==> g[|g| - 1].px != Bucket(s[i].px, side, p)
    ensures var g, h := Group(s[..i], side, p), Group(s[..j], side, p);
            |g| < |h| && h[..|g|] == g
  {
    hide Bucket;
    assert s[..j][..j - 1] == s[..j - 1];
    if i < j - 1 {
      PrefixStays(s, i, j - 1, side, p);
    }
  }

  method L2LevelsToL2Levels(s: seq<L2Level>, side: Side, limit: Option<nat>, p: Precision) returns (out: seq<L2Level>)
    requires Supported(p) && Ordered(s, side)
    ensures out == Take(Group(s, side, p), limit)
  {
    if limit == Some(0) {
      return [];
    }
    var cur, done := None, [];
    var i := 0;
    assert s[..0] == [];
    while i < |s|
      invariant InProgress(s, i, side, p, limit, cur, done)
    {
      hide InProgress;
      var stop;
      stop, cur, done := BuildL2Level(cur, done, limit, p, side, s[i], s, i);
      if stop {
        return WithCurrent(done, cur);
      }
      i := i + 1;
    }
    assert s[..|s|] == s;
    out := WithCurrent(done, cur);
  }

  /** Sizes and order counts are conserved. */
  function Volume(s: seq<L2Level>): nat {
    if s == [] then 0 else s[|s| - 1].sz + Volume(s[..|s| - 1])
  }

  function OrderCount(s: seq<L2Level>): nat {
    if s == [] then 0 else s[|s| - 1].n + OrderCount(s[..|s| - 1])
  }

  lemma ExtendConserves(g: seq<L2Level>, x: L2Level, b: nat)
    ensures Volume(Extend(g, x, b)) == Volume(g) + x.sz && OrderCount(Extend(g, x, b)) == OrderCount(g) + x.n
  {
    var g' := Extend(g, x, b);
    assert g'[..|g'| - 1] == if |g'| == |g| then g[..|g| - 1] else g;
  }

  lemma {:induction false} GroupConserves(s: seq<L2Level>, side: Side, p: Precision)
    requires Supported(p)
    ensures Volume(Group(s, side, p)) == Volume(s) && OrderCount(Group(s, side, p)) == OrderCount(s)
  {
    hide Bucket, Extend;
    if s != [] {
      GroupConserves(s[..|s| - 1], side, p);
      ExtendConserves(Group(s[..|s| - 1], side, p), s[|s| - 1], Bucket(s[|s| - 1].px, side, p));
    }
  }

  // ----- aggregating an aggregation

  lemma {:induction false} CoarseSizes(s: seq<L2Level>, side: Side, fine: Precision, coarse: Precision, b: nat)
    requires Supported(fine) && Supported(coarse)
    requires forall i :: 0 <= i < |s| ==>
               Bucket(Bucket(s[i].px, side, fine), side, coarse) == Bucket(s[i].px, side, coarse)
    ensures SizeAt(Group(s, side, fine), side, coarse, b) == SizeAt(s, side, coarse, b)
    ensures CountAt(Group(s, side, fine), side, coarse, b) == CountAt(s, side, coarse, b)
    ensures HasBucket(Group(s, side, fine), side, coarse, b) <==> HasBucket(s, side, coarse, b)
  {
    hide Bucket, SizeAt, CountAt, HasBucket;
    if s == [] {
      EmptyTotals(side, coarse, b);
    } else {
      var t, x := s[..|s| - 1], s[|s| - 1];
      assert Group(s, side, fine) == Extend(Group(t, side, fine), x, Bucket(x.px, side, fine));
      hide Group;
      CoarseSizes(t, side, fine, coarse, b);
      assert t + [x] == s;
      ExtendSizes(t, side, coarse, x, b);
      ExtendCoarse(Group(t, side, fine), x, side, Bucket(x.px, side, fine), coarse, b);
    }
  }

  lemma EmptyTotals(side: Side, p: Precision, b: nat)
    requires Supported(p)
    ensures SizeAt([], side, p, b) == 0 && CountAt([], side, p, b) == 0 && !HasBucket([], side, p, b)
  {
  }

  lemma ExtendCoarse(g: seq<L2Level>, x: L2Level, side: Side, f: nat, coarse: Precision, b: nat)
    requires Supported(coarse)
    ensures var hit := Bucket(f, side, coarse) == b;
            && SizeAt(Extend(g, x, f), side, coarse, b) == SizeAt(g, side, coarse, b) + (if hit then x.sz else 0)
            && CountAt(Extend(g, x, f), side, coarse, b) == CountAt(g, side, coarse, b) + (if hit then x.n else 0)
            && (HasBucket(Extend(g, x, f), side, coarse, b) <==> HasBucket(g, side, coarse, b) || hit)
  {
    hide Bucket, SizeAt, CountAt, HasBucket;
    if g != [] && g[|g| - 1].px == f {
      var h, y := g[..|g| - 1], g[|g| - 1];
      var y' := L2Level(f, x.sz + y.sz, y.n + x.n);
      assert h + [y] == g && h + [y'] == Extend(g, x, f);
      ExtendSizes(h, side, coarse, y, b);
      ExtendSizes(h, side, coarse, y', b);
    } else {
      ExtendSizes(g, side, coarse, L2Level(f, x.sz, x.n), b);
    }
  }

  /** If rounding finely first never changes the coarse bucket, aggregating twice is aggregating once. */
  lemma GroupTwice(s: seq<L2Level>, side: Side, fine: Precision, coarse: Precision)
    requires Supported(fine) && Supported(coarse) && Ordered(s, side)
    requires forall i :: 0 <= i < |s| ==>
               Bucket(Bucket(s[i].px, side, fine), side, coarse) == Bucket(s[i].px, side, coarse)
    ensures Ordered(Group(s, side, fine), side)
    ensures Group(Group(s, side, fine), side, coarse) == Group(s, side, coarse)
  {
    hide Bucket, Group, SizeAt, CountAt, HasBucket;
    var g := Group(s, side, fine);
    GroupIsGrouping(s, side, fine);
    GroupIsGrouping(g, side, coarse);
    GroupIsGrouping(s, side, coarse);
    forall b ensures SizeAt(g, side, coarse, b) == SizeAt(s, side, coarse, b)
                  && CountAt(g, side, coarse, b) == CountAt(s, side, coarse, b)
                  && (HasBucket(g, side, coarse, b) <==> HasBucket(s, side, coarse, b))
    {
      CoarseSizes(s, side, fine, coarse, b);
    }
    SameTotalsSameGrouping(g, s, Group(g, side, coarse), side, coarse);
    GroupingUnique(s, Group(g, side, coarse), Group(s, side, coarse), side, coarse);
  }

  lemma SameTotalsSameGrouping(g: seq<L2Level>, s: seq<L2Level>, out: seq<L2Level>, side: Side, p: Precision)
    requires Supported(p) && IsGrouping(g, out, side, p)
    requires forall b :: SizeAt(g, side, p, b) == SizeAt(s, side, p, b)
    requires forall b :: CountAt(g, side, p, b) == CountAt(s, side, p, b)
    requires forall b :: HasBucket(g, side, p, b) <==> HasBucket(s, side, p, b)
    ensures IsGrouping(s, out, side, p)
  {
    hide Bucket, SizeAt, CountAt;
    forall i | 0 <= i < |s| ensures Listed(out, Bucket(s[i].px, side, p)) {
      assert HasBucket(s, side, p, Bucket(s[i].px, side, p));
      assert HasBucket(g, side, p, Bucket(s[i].px, side, p));
      var k :| 0 <= k < |g| && Bucket(g[k].px, side, p) == Bucket(s[i].px, side, p);
    }
  }
}
