/**
 Leaving orders of size zero out of a book. As long as nothing names a left-out order, every
 operation does the same to the thinned book as to the whole one: orders of size zero do not
 take part in a match. This is what an audit's rebuild does to the books.
 */
module Thinning {
  import opened Prelude
  import opened Orders
  import opened Matching
  import opened FlatBook

  function Keep(s: seq<Order>, z: set<nat>): seq<Order> {
    if s == [] then [] else (if s[0].oid in z then [] else [s[0]]) + Keep(s[1..], z)
  }

  function Thin(b: Book, z: set<nat>): Book {
    Book(Keep(b.bids, z), Keep(b.asks, z), b.index - z)
  }

  /** Every order named by z that is in s has size zero. */
  ghost predicate Zeros(s: seq<Order>, z: set<nat>) {
    forall i :: 0 <= i < |s| && s[i].oid in z ==> s[i].sz == 0
  }

  /** z names resting orders of size zero. */
  ghost predicate Droppable(b: Book, z: set<nat>) {
    z <= b.index.Keys && Zeros(b.bids, z) && Zeros(b.asks, z)
  }

  // ----- thinned sequences

  lemma {:induction false} KeepConcat(s: seq<Order>, t: seq<Order>, z: set<nat>)
    ensures Keep(s + t, z) == Keep(s, z) + Keep(t, z)
  {
    if s == [] {
      assert s + t == t;
    } else {
      assert (s + t)[1..] == s[1..] + t;
      KeepConcat(s[1..], t, z);
      var first := if s[0].oid in z then [] else [s[0]];
      assert first + (Keep(s[1..], z) + Keep(t, z)) == (first + Keep(s[1..], z)) + Keep(t, z);
    }
  }

  lemma KeepOne(o: Order, z: set<nat>)
    ensures Keep([o], z) == if o.oid in z then [] else [o]
  {
    assert [o][1..] == [];
  }

  lemma {:induction false} KeepSame(s: seq<Order>, z: set<nat>, z': set<nat>)
    requires forall i :: 0 <= i < |s| ==> (s[i].oid in z <==> s[i].oid in z')
    ensures Keep(s, z) == Keep(s, z')
  {
    if s != [] {
      KeepSame(s[1..], z, z');
    }
  }

  lemma {:induction false} KeepFrom(s: seq<Order>, z: set<nat>)
    ensures forall i :: 0 <= i < |Keep(s, z)| ==> Keep(s, z)[i] in s && Keep(s, z)[i].oid !in z
  {
    if s != [] {
      KeepFrom(s[1..], z);
    }
  }

  lemma {:induction false} KeepAll(s: seq<Order>, z: set<nat>)
    requires forall i :: 0 <= i < |s| ==> s[i].oid !in z
    ensures Keep(s, z) == s
  {
    if s != [] {
      KeepAll(s[1..], z);
    }
  }

  /** s cut at i, thinned. */
  lemma KeepCut(s: seq<Order>, i: nat, z: set<nat>)
    requires i <= |s|
    ensures Keep(s, z) == Keep(s[..i], z) + Keep(s[i..], z) && |Keep(s[..i], z)| <= |Keep(s, z)|
  {
    assert s == s[..i] + s[i..];
    KeepConcat(s[..i], s[i..], z);
  }

  lemma KeepInsert(s: seq<Order>, i: nat, o: Order, z: set<nat>)
    requires i <= |s| && o.oid !in z
    ensures |Keep(s[..i], z)| <= |Keep(s, z)|
    ensures Keep(InsertAt(s, i, o), z) == InsertAt(Keep(s, z), |Keep(s[..i], z)|, o)
  {
    hide Keep;
    KeepCut(s, i, z);
    KeepConcat(s[..i] + [o], s[i..], z);
    KeepConcat(s[..i], [o], z);
    KeepOne(o, z);
  }

  /** An element that is kept, and its place. */
  lemma KeepPlace(s: seq<Order>, i: nat, z: set<nat>)
    requires i < |s| && s[i].oid !in z
    ensures var k := |Keep(s[..i], z)|;
            && k < |Keep(s, z)| && Keep(s, z)[k] == s[i]
            && Keep(s, z)[..k] == Keep(s[..i], z) && Keep(s, z)[k + 1..] == Keep(s[i + 1..], z)
  {
    hide Keep;
    KeepCut(s, i, z);
    assert s[i..] == [s[i]] + s[i + 1..];
    KeepConcat([s[i]], s[i + 1..], z);
    KeepOne(s[i], z);
  }

  lemma KeepWithout(s: seq<Order>, i: nat, z: set<nat>)
    requires i < |s| && s[i].oid !in z
    ensures var k := |Keep(s[..i], z)|; k < |Keep(s, z)| && Keep(Without(s, i), z) == Without(Keep(s, z), k)
  {
    hide Keep;
    KeepPlace(s, i, z);
    KeepConcat(s[..i], s[i + 1..], z);
  }

  lemma KeepResize(s: seq<Order>, i: nat, sz: nat, z: set<nat>)
    requires i < |s| && s[i].oid !in z
    ensures var k := |Keep(s[..i], z)|;
            k < |Keep(s, z)| && Keep(s[i := s[i].(sz := sz)], z) == Keep(s, z)[k := s[i].(sz := sz)]
  {
    hide Keep;
    KeepPlace(s, i, z);
    var o := s[i].(sz := sz);
    var s' := s[i := o];
    assert s' == s[..i] + [o] + s[i + 1..];
    KeepConcat(s[..i] + [o], s[i + 1..], z);
    KeepConcat(s[..i], [o], z);
    KeepOne(o, z);
  }

  lemma KeepHead(s: seq<Order>, z: set<nat>)
    requires s != []
    ensures s[0].oid in z ==> Keep(s, z) == Keep(s[1..], z)
    ensures s[0].oid !in z ==> Keep(s, z) != [] && Keep(s, z)[0] == s[0] && Keep(s, z)[1..] == Keep(s[1..], z)
  {
  }

  /** The head and the cut of s, thinned. */
  lemma KeepHeadOfCut(s: seq<Order>, i: nat, z: set<nat>)
    requires 0 < i <= |s|
    ensures |Keep(s[..i], z)| == |Keep(s[1..][..i - 1], z)| + (if s[0].oid in z then 0 else 1)
  {
    assert s[..i][1..] == s[1..][..i - 1] && s[..i][0] == s[0];
  }

  lemma FindHead(s: seq<Order>, px: nat, oid: nat)
    requires s != []
    ensures Find(s, px, oid) == if s[0].px == px && s[0].oid == oid then 0 else 1 + Find(s[1..], px, oid)
  {
  }

  lemma NotFoundAmong(s: seq<Order>, z: set<nat>, px: nat, oid: nat)
    requires oid in z
    ensures !Rests(Keep(s, z), px, oid)
  {
    KeepFrom(s, z);
    hide Keep;
    var i := Find(Keep(s, z), px, oid);
  }

  lemma {:induction false} FindKeep(s: seq<Order>, z: set<nat>, px: nat, oid: nat)
    requires oid !in z
    ensures Rests(Keep(s, z), px, oid) <==> Rests(s, px, oid)
    ensures Rests(s, px, oid) ==> Find(Keep(s, z), px, oid) == |Keep(s[..Find(s, px, oid)], z)|
  {
    if s != [] {
      hide Find, Keep;
      FindKeep(s[1..], z, px, oid);
      FindHead(s, px, oid);
      KeepHead(s, z);
      var i := Find(s, px, oid);
      if s[0].oid !in z {
        FindHead(Keep(s, z), px, oid);
      }
      if i > 0 && i <= |s| {
        KeepHeadOfCut(s, i, z);
      } else {
        KeepNothing(s, z);
      }
    }
  }

  lemma KeepNothing(s: seq<Order>, z: set<nat>)
    ensures Keep(s[..0], z) == []
  {
  }

  lemma BackHead(s: seq<Order>, side: Side, px: nat)
    requires s != []
    ensures BackOf(s, side, px) == if Better(side, px, s[0].px) then 0 else 1 + BackOf(s[1..], side, px)
  {
  }

  lemma SortedRest(s: seq<Order>, side: Side)
    requires s != [] && Sorted(s, side)
    ensures Sorted(s[1..], side)
  {
  }

  /** A price ahead of the first is ahead of all. */
  lemma BackKeepFirst(s: seq<Order>, z: set<nat>, side: Side, px: nat)
    requires s != [] && Sorted(s, side) && Better(side, px, s[0].px)
    ensures BackOf(Keep(s, z), side, px) == 0
  {
    hide Keep;
    KeepFrom(s, z);
    if Keep(s, z) != [] {
      assert Keep(s, z)[0] in s;
      BackHead(Keep(s, z), side, px);
    }
  }

  lemma {:induction false} BackKeep(s: seq<Order>, z: set<nat>, side: Side, px: nat)
    requires Sorted(s, side)
    ensures BackOf(Keep(s, z), side, px) == |Keep(s[..BackOf(s, side, px)], z)|
  {
    var i := BackOf(s, side, px);
    if s != [] {
      hide Keep, BackOf, Better;
      BackHead(s, side, px);
      if i == 0 {
        KeepNothing(s, z);
        BackKeepFirst(s, z, side, px);
      } else {
        SortedRest(s, side);
        BackKeep(s[1..], z, side, px);
        KeepHead(s, z);
        KeepHeadOfCut(s, i, z);
        if s[0].oid !in z {
          BackHead(Keep(s, z), side, px);
        }
      }
    }
  }

  // ----- matching passes over left-out orders

  ghost predicate SameMatch(r: MatchResult, q: MatchResult, z: set<nat>) {
    && q.makers == Keep(r.makers, z) && q.left == r.left
    && (forall x :: x in q.filled <==> x in r.filled && x !in z)
    && Zeros(r.makers, z)
  }

  lemma {:induction false} MatchKeep(s: seq<Order>, z: set<nat>, side: Side, limit: nat, sz: nat)
    requires sz > 0 && Sorted(s, Opposite(side)) && Zeros(s, z)
    ensures SameMatch(Match(s, side, limit, sz), Match(Keep(s, z), side, limit, sz), z)
    decreases |s|
  {
    if s != [] {
      hide Match, Keep;
      if !Crosses(side, limit, s[0].px) {
        NoneCrosses(s, z, side, limit, sz);
      } else if s[0].sz < sz {
        MatchKeep(s[1..], z, side, limit, sz - s[0].sz);
        GoOnKeep(s, z, side, limit, sz);
      } else {
        LastKeep(s, z, side, limit, sz);
      }
    }
  }

  /** A taker that takes its first maker whole. */
  lemma GoOnKeep(s: seq<Order>, z: set<nat>, side: Side, limit: nat, sz: nat)
    requires s != [] && Zeros(s, z) && Crosses(side, limit, s[0].px) && s[0].sz < sz
    requires var left := sz - s[0].sz;
             SameMatch(Match(s[1..], side, limit, left), Match(Keep(s[1..], z), side, limit, left), z)
    ensures SameMatch(Match(s, side, limit, sz), Match(Keep(s, z), side, limit, sz), z)
  {
    hide Match, Keep;
    KeepHead(s, z);
    MatchUnfold(s, side, limit, sz);
    if s[0].oid !in z {
      MatchUnfold(Keep(s, z), side, limit, sz);
    }
  }

  /** A taker that its first maker exhausts. */
  lemma LastKeep(s: seq<Order>, z: set<nat>, side: Side, limit: nat, sz: nat)
    requires s != [] && sz > 0 && Zeros(s, z) && Crosses(side, limit, s[0].px) && s[0].sz >= sz
    ensures SameMatch(Match(s, side, limit, sz), Match(Keep(s, z), side, limit, sz), z)
  {
    hide Match, Keep;
    KeepHead(s, z);
    MatchLast(s, side, limit, sz);
    MatchLast(Keep(s, z), side, limit, sz);
    var left := [s[0].(sz := s[0].sz - sz)] + s[1..];
    KeepHead(left, z);
    assert left[1..] == s[1..];
  }

  lemma NoneCrosses(s: seq<Order>, z: set<nat>, side: Side, limit: nat, sz: nat)
    requires s != [] && Sorted(s, Opposite(side)) && !Crosses(side, limit, s[0].px)
    ensures Match(s, side, limit, sz) == MatchResult(s, [], sz)
    ensures Match(Keep(s, z), side, limit, sz) == MatchResult(Keep(s, z), [], sz)
  {
    KeepFrom(s, z);
    if Keep(s, z) != [] {
      assert Keep(s, z)[0] in s;
    }
  }

  // ----- takers of size zero

  /** A taker of size zero takes away the first order if that crosses and has size zero, and nothing else. */
  function FirstZero(s: seq<Order>, side: Side, limit: nat): set<nat> {
    if s != [] && Crosses(side, limit, s[0].px) && s[0].sz == 0 then {s[0].oid} else {}
  }

  lemma MatchZero(s: seq<Order>, side: Side, limit: nat)
    ensures var r := Match(s, side, limit, 0);
            && r.left == 0 && (set oid | oid in r.filled) == FirstZero(s, side, limit)
            && r.makers == if FirstZero(s, side, limit) == {} then s else s[1..]
  {
    if s != [] && Crosses(side, limit, s[0].px) {
      MatchLast(s, side, limit, 0);
      hide Match;
      if s[0].sz == 0 {
        assert Match(s, side, limit, 0).filled == [s[0].oid];
      } else {
        assert [s[0].(sz := s[0].sz - 0)] + s[1..] == s;
      }
    }
  }

  ghost predicate DistinctOids(s: seq<Order>) {
    forall i, j :: 0 <= i < j < |s| ==> s[i].oid != s[j].oid
  }

  /** Leaving out the first of the kept orders as well. */
  lemma {:induction false} KeepWithoutFirst(s: seq<Order>, z: set<nat>)
    requires DistinctOids(s) && Keep(s, z) != []
    ensures Keep(s, z + {Keep(s, z)[0].oid}) == Keep(s, z)[1..]
  {
    if s != [] {
      hide Keep;
      KeepHead(s, z);
      var g := Keep(s, z)[0].oid;
      KeepHead(s, z + {g});
      if s[0].oid in z {
        KeepWithoutFirst(s[1..], z);
      } else {
        KeepSame(s[1..], z, z + {g});
      }
    }
  }

  /** The left-out orders after a taker of size zero: another one may be missing in place of the one taken away. */
  function ZeroGone(s: seq<Order>, z: set<nat>, side: Side, limit: nat): set<nat> {
    z + FirstZero(Keep(s, z), side, limit) - FirstZero(s, side, limit)
  }

  lemma ZeroKeep(s: seq<Order>, z: set<nat>, side: Side, limit: nat)
    requires Sorted(s, Opposite(side)) && Zeros(s, z) && DistinctOids(s)
    ensures Match(Keep(s, z), side, limit, 0).makers ==
              Keep(Match(s, side, limit, 0).makers, ZeroGone(s, z, side, limit))
  {
    hide Match, Keep;
    MatchZero(s, side, limit);
    MatchZero(Keep(s, z), side, limit);
    if s == [] {
      KeepNothing(s, z);
      KeepNothing(s, ZeroGone(s, z, side, limit));
      assert s[..0] == s;
    } else if !Crosses(side, limit, s[0].px) {
      NoneCrosses(s, z, side, limit, 0);
      NoFirstZero(s, z, side, limit);
      assert ZeroGone(s, z, side, limit) == z;
    } else {
      KeepHead(s, z);
      if s[0].oid !in z {
        assert ZeroGone(s, z, side, limit) == z;
      } else {
        ZeroSwap(s, z, side, limit);
      }
    }
  }

  lemma NoFirstZero(s: seq<Order>, z: set<nat>, side: Side, limit: nat)
    requires s != [] && Sorted(s, Opposite(side)) && !Crosses(side, limit, s[0].px)
    ensures FirstZero(Keep(s, z), side, limit) == {}
  {
    hide Keep;
    KeepFrom(s, z);
    if Keep(s, z) != [] {
      assert Keep(s, z)[0] in s;
    }
  }

  /** The whole book loses a left-out order, the thinned one perhaps its own first. */
  lemma ZeroSwap(s: seq<Order>, z: set<nat>, side: Side, limit: nat)
    requires s != [] && s[0].oid in z && DistinctOids(s)
    ensures var first := FirstZero(Keep(s[1..], z), side, limit);
            Keep(s[1..], z + first - {s[0].oid}) == if first == {} then Keep(s[1..], z) else Keep(s[1..], z)[1..]
  {
    hide Keep;
    var first := FirstZero(Keep(s[1..], z), side, limit);
    KeepSame(s[1..], z + first, z + first - {s[0].oid});
    if first == {} {
      assert z + first == z;
    } else {
      KeepWithoutFirst(s[1..], z);
    }
  }

  // ----- operations on the thinned book

  /** Orders left out that still rest. */
  function Still(b: Book, z: set<nat>): set<nat> {
    z * b.index.Keys
  }

  /** The left-out orders that still rest once the taker has matched. */
  function GoneAfter(b: Book, z: set<nat>, o: Order): set<nat> {
    if o.sz > 0 then Still(Matched(b, o.side, o.px, o.sz), z)
    else ZeroGone(OnSide(b, Opposite(o.side)), z, o.side, o.px)
  }

  lemma ThinMatched(b: Book, z: set<nat>, o: Order)
    requires WellFormed(b) && Droppable(b, z)
    ensures var b1 := Matched(b, o.side, o.px, o.sz);
            && Matched(Thin(b, z), o.side, o.px, o.sz) == Thin(b1, GoneAfter(b, z, o))
            && Leftover(Thin(b, z), o) == Leftover(b, o)
            && WellFormed(b1) && Droppable(b1, GoneAfter(b, z, o))
  {
    MatchedWellFormed(b, o.side, o.px, o.sz);
    hide WellFormed, Matched, Leftover, Thin, Droppable;
    if o.sz > 0 {
      ThinMatchedSome(b, z, o);
    } else {
      ThinMatchedZero(b, z, o);
    }
  }

  lemma ThinMatchedSome(b: Book, z: set<nat>, o: Order)
    requires WellFormed(b) && Droppable(b, z) && o.sz > 0
    ensures var b1 := Matched(b, o.side, o.px, o.sz);
            && Matched(Thin(b, z), o.side, o.px, o.sz) == Thin(b1, Still(b1, z))
            && Leftover(Thin(b, z), o) == Leftover(b, o)
            && Droppable(b1, Still(b1, z))
  {
    hide Match, Keep, WellFormed, Sorted;
    var b1 := Matched(b, o.side, o.px, o.sz);
    SidesSorted(b);
    MatchKeep(OnSide(b, Opposite(o.side)), z, o.side, o.px, o.sz);
    MatchedWellFormed(b, o.side, o.px, o.sz);
    SidesIndexed(b1);
    KeepSame(b1.bids, z, Still(b1, z));
    KeepSame(b1.asks, z, Still(b1, z));
    var t := Matched(Thin(b, z), o.side, o.px, o.sz);
    assert t.index == Thin(b1, Still(b1, z)).index;
  }

  function Oids(s: seq<Order>): set<nat> {
    set i | 0 <= i < |s| :: s[i].oid
  }

  /** What a taker of size zero takes away from the thinned side: an order of size zero that was kept. */
  lemma FirstZeroFacts(s: seq<Order>, z: set<nat>, side: Side, limit: nat)
    requires DistinctOids(s) && Zeros(s, z)
    ensures var lost := FirstZero(Keep(s, z), side, limit);
            && lost <= Oids(s) && lost !! z && Zeros(s, lost) && FirstZero(s, side, limit) <= z + lost
  {
    hide Keep;
    KeepFrom(s, z);
    if s != [] {
      KeepHead(s, z);
    }
    if Keep(s, z) != [] {
      assert Keep(s, z)[0] in s;
      var i :| 0 <= i < |s| && s[i] == Keep(s, z)[0];
      assert s[i].oid in Oids(s);
    }
  }

  lemma ZerosLess(s: seq<Order>, s': seq<Order>, z: set<nat>, lost: set<nat>, first: set<nat>)
    requires Zeros(s, z) && Zeros(s, lost) && (s' == s || (s != [] && s' == s[1..]))
    ensures Zeros(s', z + lost - first)
  {
  }

  /** Nothing of the other side is concerned. */
  lemma OtherSide(other: seq<Order>, s: seq<Order>, z: set<nat>, lost: set<nat>, first: set<nat>)
    requires Oids(other) !! Oids(s) && lost <= Oids(s) && first <= Oids(s) && Zeros(other, z)
    ensures Keep(other, z + lost - first) == Keep(other, z) && Zeros(other, z + lost - first)
  {
    forall i | 0 <= i < |other| ensures other[i].oid in z <==> other[i].oid in z + lost - first {
      assert other[i].oid in Oids(other);
    }
    KeepSame(other, z, z + lost - first);
    hide Keep;
  }

  lemma FirstZeroListed(s: seq<Order>, side: Side, limit: nat)
    ensures FirstZero(s, side, limit) <= Oids(s)
  {
    if s != [] {
      assert s[0].oid in Oids(s);
    }
  }

  lemma SidesApart(b: Book, side: Side)
    requires WellFormed(b)
    ensures var s, other := OnSide(b, Opposite(side)), OnSide(b, side);
            DistinctOids(s) && Oids(other) !! Oids(s) && Oids(s) <= b.index.Keys && Sorted(s, Opposite(side))
  {
    OidsUniqueInBook(b);
    SidesIndexed(b);
    SidesSorted(b);
    hide WellFormed;
  }

  lemma IndexLess(index: map<nat, (Side, nat)>, z: set<nat>, lost: set<nat>, first: set<nat>)
    requires first <= z + lost
    ensures index - z - lost == index - first - (z + lost - first)
  {
  }

  lemma ThinMatchedZero(b: Book, z: set<nat>, o: Order)
    requires WellFormed(b) && Droppable(b, z) && o.sz == 0
    ensures var b1, z' := Matched(b, o.side, o.px, o.sz), GoneAfter(b, z, o);
            && Matched(Thin(b, z), o.side, o.px, o.sz) == Thin(b1, z')
            && Leftover(Thin(b, z), o) == Leftover(b, o)
            && Droppable(b1, z')
  {
    hide WellFormed, Match, Keep, Sorted, FirstZero, Oids, DistinctOids, Zeros;
    var s, other := OnSide(b, Opposite(o.side)), OnSide(b, o.side);
    var lost, first := FirstZero(Keep(s, z), o.side, o.px), FirstZero(s, o.side, o.px);
    SidesApart(b, o.side);
    MatchZero(s, o.side, o.px);
    MatchZero(Keep(s, z), o.side, o.px);
    FirstZeroFacts(s, z, o.side, o.px);
    FirstZeroListed(s, o.side, o.px);
    OtherSide(other, s, z, lost, first);
    MatchZeroLess(s, o.side, o.px);
    ZerosLess(s, Match(s, o.side, o.px, 0).makers, z, lost, first);
    ZeroKeep(s, z, o.side, o.px);
    IndexLess(b.index, z, lost, first);
  }

  lemma MatchZeroLess(s: seq<Order>, side: Side, limit: nat)
    ensures var s' := Match(s, side, limit, 0).makers; s' == s || (s != [] && s' == s[1..])
  {
    MatchZero(s, side, limit);
    hide Match;
  }

  lemma SidesSorted(b: Book)
    requires WellFormed(b)
    ensures Sorted(b.bids, Bid) && Sorted(b.asks, Ask)
  {
  }

  lemma SidesIndexed(b: Book)
    requires WellFormed(b)
    ensures forall i :: 0 <= i < |b.bids| ==> b.bids[i].oid in b.index
    ensures forall i :: 0 <= i < |b.asks| ==> b.asks[i].oid in b.index
  {
  }

  /** The addition has something left to rest and must go in front of a left-out order. */
  predicate NamesLeftOut(b: Book, z: set<nat>, o: Order, before: Option<nat>) {
    Leftover(b, o) > 0 && before.Some? && before.value in Still(Matched(b, o.side, o.px, o.sz), z)
  }

  lemma ThinPlace(s: seq<Order>, z: set<nat>, o: Order, before: Option<nat>)
    requires Sorted(s, o.side) && o.oid !in z && !Rests(s, o.px, o.oid) && Place(s, o, before).Some?
    ensures before.Some? && before.value in z ==> Place(Keep(s, z), o, before).None?
    ensures before.None? || before.value !in z ==>
              Place(Keep(s, z), o, before) == Some(Keep(Place(s, o, before).value, z))
  {
    hide Keep, Find, BackOf, Sorted;
    FindKeep(s, z, o.px, o.oid);
    if before.None? {
      BackKeep(s, z, o.side, o.px);
      KeepInsert(s, BackOf(s, o.side, o.px), o, z);
    } else if before.value in z {
      NotFoundAmong(s, z, o.px, before.value);
    } else {
      FindKeep(s, z, o.px, before.value);
      KeepInsert(s, Find(s, o.px, before.value), o, z);
    }
  }

  lemma NotResting(b: Book, side: Side, px: nat, oid: nat)
    requires WellFormed(b) && oid !in b.index
    ensures !Rests(OnSide(b, side), px, oid)
  {
  }

  /** Placing on the thinned book is thinning the placed book, unless it names a left-out order. */
  lemma ThinPlaceOrder(b: Book, z: set<nat>, o: Order, before: Option<nat>)
    requires WellFormed(b) && Droppable(b, z) && o.oid !in b.index && PlaceOrder(b, o, before).ok
    ensures before.Some? && before.value in z ==> !PlaceOrder(Thin(b, z), o, before).ok
    ensures before.None? || before.value !in z ==>
              var b' := PlaceOrder(b, o, before).book;
              PlaceOrder(Thin(b, z), o, before) == Reply(Thin(b', z), true) && Droppable(b', z)
  {
    hide Place, Keep, WellFormed, Sorted, Find;
    var s := OnSide(b, o.side);
    SidesSorted(b);
    NotResting(b, o.side, o.px, o.oid);
    ThinPlace(s, z, o, before);
    ZerosPlace(s, z, o, before);
    assert (b.index - z)[o.oid := (o.side, o.px)] == b.index[o.oid := (o.side, o.px)] - z;
  }

  /** What is left of the order rests only under an oid that does not rest by then. */
  predicate RestsFresh(b: Book, o: Order) {
    Leftover(b, o) > 0 ==> o.oid !in Matched(b, o.side, o.px, o.sz).index
  }

  lemma ThinAdd(b: Book, z: set<nat>, o: Order, before: Option<nat>)
    requires WellFormed(b) && Droppable(b, z) && RestsFresh(b, o) && AddBefore(b, o, before).ok
    ensures NamesLeftOut(b, z, o, before) ==> !AddBefore(Thin(b, z), o, before).ok
    ensures !NamesLeftOut(b, z, o, before) ==>
              var b', z' := AddBefore(b, o, before).book, GoneAfter(b, z, o);
              AddBefore(Thin(b, z), o, before) == Reply(Thin(b', z'), true) && Droppable(b', z')
  {
    hide PlaceOrder, WellFormed, Keep, Droppable, Thin, Matched;
    var b1 := Matched(b, o.side, o.px, o.sz);
    ThinMatched(b, z, o);
    NothingLeft(b, o);
    hide Leftover;
    if Leftover(b, o) > 0 {
      ThinPlaceOrder(b1, Still(b1, z), o.(sz := Leftover(b, o)), before);
    }
  }

  lemma NothingLeft(b: Book, o: Order)
    ensures o.sz == 0 ==> Leftover(b, o) == 0
  {
    MatchZero(OnSide(b, Opposite(o.side)), o.side, o.px);
    hide Match;
  }

  lemma ZerosPlace(s: seq<Order>, z: set<nat>, o: Order, before: Option<nat>)
    requires Zeros(s, z) && o.oid !in z && Place(s, o, before).Some?
    ensures Zeros(Place(s, o, before).value, z)
  {
    hide Find, BackOf;
  }

  lemma ThinCancel(b: Book, z: set<nat>, oid: nat)
    requires WellFormed(b) && Droppable(b, z) && Cancel(b, oid).ok
    ensures oid in z ==> !Cancel(Thin(b, z), oid).ok
    ensures oid !in z ==>
              && Cancel(Thin(b, z), oid) == Reply(Thin(Cancel(b, oid).book, z), true)
              && Droppable(Cancel(b, oid).book, z)
  {
    hide Keep, Find, WellFormed;
    var (side, px) := b.index[oid];
    var s := OnSide(b, side);
    if oid !in z {
      FindKeep(s, z, px, oid);
      var i := Find(s, px, oid);
      KeepWithout(s, i, z);
      ZerosWithout(s, z, i);
      assert b.index - {oid} - z == b.index - z - {oid};
    }
  }

  lemma ZerosWithout(s: seq<Order>, z: set<nat>, i: nat)
    requires Zeros(s, z) && i < |s|
    ensures Zeros(Without(s, i), z)
  {
  }

  lemma ThinModifySz(b: Book, z: set<nat>, oid: nat, sz: nat)
    requires WellFormed(b) && Droppable(b, z) && ModifySz(b, oid, sz).ok
    ensures oid in z ==> !ModifySz(Thin(b, z), oid, sz).ok
    ensures oid !in z ==>
              && ModifySz(Thin(b, z), oid, sz) == Reply(Thin(ModifySz(b, oid, sz).book, z), true)
              && Droppable(ModifySz(b, oid, sz).book, z)
  {
    hide Keep, Find, WellFormed;
    var (side, px) := b.index[oid];
    var s := OnSide(b, side);
    if oid !in z {
      FindKeep(s, z, px, oid);
      var i := Find(s, px, oid);
      KeepResize(s, i, sz, z);
      KeepPlace(s, i, z);
    }
  }
}
