/**
 The order book as it is stored: per side a map from price to a linked list of orders, and the
 oid index. Every method computes the corresponding function of the flat book.
 */
module LevelBook {
  import opened Prelude
  import opened Orders
  import opened Matching
  import opened FlatBook
  import opened Snapshots
  import opened SlabList

  type Level = LinkedList<nat, Order>

  /** The orders of s resting at one price, in queue order. */
  function LevelAt(s: seq<Order>, px: nat): seq<Order> {
    if s == [] then [] else (if s[0].px == px then [s[0]] else []) + LevelAt(s[1..], px)
  }

  function Keyed(s: seq<Order>): (r: seq<(nat, Order)>)
    ensures |r| == |s|
    ensures forall i {:trigger r[i]} :: 0 <= i < |s| ==> r[i] == (s[i].oid, s[i])
  {
    seq(|s|, i requires 0 <= i < |s| => (s[i].oid, s[i]))
  }

  ghost predicate Holds(l: Level, s: seq<Order>)
    reads l
  {
    l.Valid() && l.Entries() == Keyed(s)
  }

  /** Each price of s has its own list, holding exactly that level; no list is empty. */
  ghost predicate Represents(m: map<nat, Level>, s: seq<Order>, side: Side)
    reads m.Values
  {
    && SideOk(s, side)
    && (forall p, q :: p in m && q in m && p != q ==> m[p] != m[q])
    && (forall p :: p in m ==> Holds(m[p], LevelAt(s, p)) && LevelAt(s, p) != [])
    && (forall i :: 0 <= i < |s| ==> s[i].px in m)
  }

  // ----- levels of a flat side

  lemma {:induction false} LevelAtConcat(s: seq<Order>, t: seq<Order>, px: nat)
    ensures LevelAt(s + t, px) == LevelAt(s, px) + LevelAt(t, px)
  {
    if s == [] {
      assert s + t == t;
    } else {
      assert (s + t)[1..] == s[1..] + t;
      LevelAtConcat(s[1..], t, px);
      var first := if s[0].px == px then [s[0]] else [];
      assert LevelAt(s + t, px) == first + LevelAt(s[1..] + t, px);
      assert first + (LevelAt(s[1..], px) + LevelAt(t, px)) == (first + LevelAt(s[1..], px)) + LevelAt(t, px);
    }
  }

  lemma LevelAtOne(o: Order, px: nat)
    ensures LevelAt([o], px) == if o.px == px then [o] else []
  {
    assert [o][1..] == [];
  }

  lemma {:induction false} LevelAtFacts(s: seq<Order>, px: nat)
    ensures forall i :: 0 <= i < |LevelAt(s, px)| ==> LevelAt(s, px)[i].px == px && LevelAt(s, px)[i] in s
    ensures LevelAt(s, px) == [] <==> forall i :: 0 <= i < |s| ==> s[i].px != px
  {
    if s != [] {
      LevelAtFacts(s[1..], px);
      assert s == [s[0]] + s[1..];
    }
  }

  /** Position within the level of the order that Find locates within the side. */
  lemma {:induction false} LevelPosition(s: seq<Order>, px: nat, oid: nat)
    ensures var i := Find(s, px, oid);
            && IndexOf(Keyed(LevelAt(s, px)), oid) == |LevelAt(s[..i], px)|
            && (HasKey(Keyed(LevelAt(s, px)), oid) <==> Rests(s, px, oid))
  {
    if s != [] && !(s[0].px == px && s[0].oid == oid) {
      LevelPosition(s[1..], px, oid);
      var i := Find(s, px, oid);
      assert s[..i][1..] == s[1..][..i - 1];
      var l, l' := Keyed(LevelAt(s, px)), Keyed(LevelAt(s[1..], px));
      if s[0].px == px {
        assert l[1..] == l';
      } else {
        assert l == l';
      }
    } else {
      assert s[..0] == [];
    }
  }

  lemma LevelAtInsert(s: seq<Order>, i: nat, o: Order, px: nat)
    requires i <= |s|
    ensures |LevelAt(s[..i], px)| <= |LevelAt(s, px)|
    ensures LevelAt(InsertAt(s, i, o), px)
         == if o.px == px then InsertAt(LevelAt(s, px), |LevelAt(s[..i], px)|, o) else LevelAt(s, px)
  {
    hide LevelAt;
    LevelAtConcat(s[..i], [o] + s[i..], px);
    LevelAtConcat([o], s[i..], px);
    LevelAtConcat(s[..i], s[i..], px);
    LevelAtOne(o, px);
    assert s == s[..i] + s[i..];
    assert InsertAt(s, i, o) == s[..i] + ([o] + s[i..]);
  }

  lemma LevelAtWithout(s: seq<Order>, i: nat, px: nat)
    requires i < |s|
    ensures s[i].px == px ==> |LevelAt(s[..i], px)| < |LevelAt(s, px)|
    ensures LevelAt(Without(s, i), px)
         == if s[i].px == px then Without(LevelAt(s, px), |LevelAt(s[..i], px)|) else LevelAt(s, px)
  {
    hide LevelAt;
    LevelAtInsert(Without(s, i), i, s[i], px);
    assert InsertAt(Without(s, i), i, s[i]) == s;
    assert Without(s, i)[..i] == s[..i];
    if s[i].px == px {
      var l, k := LevelAt(Without(s, i), px), |LevelAt(s[..i], px)|;
      assert Without(InsertAt(l, k, s[i]), k) == l;
    }
  }

  lemma LevelAtUpdate(s: seq<Order>, i: nat, sz: nat, px: nat)
    requires i < |s|
    ensures s[i].px == px ==> |LevelAt(s[..i], px)| < |LevelAt(s, px)|
    ensures LevelAt(s[i := s[i].(sz := sz)], px)
         == if s[i].px == px then LevelAt(s, px)[|LevelAt(s[..i], px)| := s[i].(sz := sz)] else LevelAt(s, px)
  {
    hide LevelAt;
    LevelAtInsert(Without(s, i), i, s[i], px);
    LevelAtInsert(Without(s, i), i, s[i].(sz := sz), px);
    assert InsertAt(Without(s, i), i, s[i]) == s;
    assert InsertAt(Without(s, i), i, s[i].(sz := sz)) == s[i := s[i].(sz := sz)];
    assert Without(s, i)[..i] == s[..i];
  }

  /** In a sorted side everything at the price sits in front of where a newcomer queues. */
  lemma LevelBeforeBack(s: seq<Order>, side: Side, px: nat)
    requires Sorted(s, side)
    ensures LevelAt(s[..BackOf(s, side, px)], px) == LevelAt(s, px)
  {
    var i := BackOf(s, side, px);
    assert forall j :: i <= j < |s| ==> s[j].px != px;
    hide LevelAt, BackOf, Sorted;
    LevelAtNowhere(s[i..], px);
    LevelAtConcat(s[..i], s[i..], px);
    assert s == s[..i] + s[i..];
  }

  lemma LevelAtNowhere(s: seq<Order>, px: nat)
    requires forall i :: 0 <= i < |s| ==> s[i].px != px
    ensures LevelAt(s, px) == []
  {
    LevelAtFacts(s, px);
    hide LevelAt;
  }

  /** The best-priced level is a prefix of the side; what follows it has strictly worse prices. */
  lemma {:induction false} BestLevelIsPrefix(s: seq<Order>, side: Side, px: nat)
    requires Sorted(s, side)
    requires forall i :: 0 <= i < |s| ==> !Better(side, s[i].px, px)
    ensures |LevelAt(s, px)| <= |s| && s[..|LevelAt(s, px)|] == LevelAt(s, px)
    ensures forall i :: |LevelAt(s, px)| <= i < |s| ==> Better(side, px, s[i].px)
  {
    if s != [] {
      BestLevelIsPrefix(s[1..], side, px);
      if s[0].px != px {
        LevelAtFacts(s[1..], px);
      }
    }
  }

  lemma LevelAtTail(s: seq<Order>, px: nat)
    requires s != []
    ensures LevelAt(s, px) == (if s[0].px == px then [s[0]] else []) + LevelAt(s[1..], px)
  {
  }

  /** A level that is not empty at some price, together with sortedness, fixes the first order. */
  lemma FirstOfLevels(s: seq<Order>, t: seq<Order>, side: Side)
    requires s != [] && Sorted(s, side) && Sorted(t, side)
    requires forall p :: LevelAt(s, p) == LevelAt(t, p)
    ensures t != [] && s[0] == t[0]
  {
    hide LevelAt;
    LevelAtTail(s, s[0].px);
    LevelAtFacts(t, s[0].px);
    LevelAtTail(t, t[0].px);
    LevelAtFacts(s, t[0].px);
    assert s[0].px == t[0].px;
    assert LevelAt(s, s[0].px)[0] == s[0] && LevelAt(t, t[0].px)[0] == t[0];
  }

  /** Two sorted sides with the same levels are the same side. */
  lemma {:induction false} LevelsDetermineSide(s: seq<Order>, t: seq<Order>, side: Side)
    requires Sorted(s, side) && Sorted(t, side)
    requires forall p :: LevelAt(s, p) == LevelAt(t, p)
    ensures s == t
    decreases |s|
  {
    hide LevelAt;
    if s == [] {
      if t != [] {
        FirstOfLevels(t, s, side);
      }
    } else {
      FirstOfLevels(s, t, side);
      forall q ensures LevelAt(s[1..], q) == LevelAt(t[1..], q) {
        LevelAtTail(s, q);
        LevelAtTail(t, q);
        var first := if s[0].px == q then [s[0]] else [];
        assert (first + LevelAt(s[1..], q))[|first|..] == LevelAt(s[1..], q);
        assert (first + LevelAt(t[1..], q))[|first|..] == LevelAt(t[1..], q);
      }
      LevelsDetermineSide(s[1..], t[1..], side);
      assert s == [s[0]] + s[1..] && t == [t[0]] + t[1..];
    }
  }

  // ----- iteration in priority order

  ghost predicate Ranked(ps: seq<nat>, side: Side) {
    forall i, j :: 0 <= i < j < |ps| ==> Better(side, ps[i], ps[j])
  }

  method Best(keys: set<nat>, side: Side) returns (p: nat)
    requires keys != {}
    ensures p in keys
    ensures forall q :: q in keys ==> !Better(side, q, p)
  {
    p :| p in keys;
    var rest := keys - {p};
    while rest != {}
      invariant p in keys && rest <= keys
      invariant forall q :: q in keys && q !in rest ==> !Better(side, q, p)
      decreases rest
    {
      var q :| q in rest;
      if Better(side, q, p) {
        p := q;
      }
      rest := rest - {q};
    }
  }

  /** The prices of an ordered map, best first: forward iteration for asks, reversed for bids. */
  method InPriority(keys: set<nat>, side: Side) returns (ps: seq<nat>)
    ensures Ranked(ps, side)
    ensures forall p :: p in keys <==> p in ps
  {
    ps := [];
    var rest := keys;
    while rest != {}
      invariant rest <= keys && Ranked(ps, side)
      invariant forall p :: p in keys <==> p in rest || p in ps
      invariant forall i, q :: 0 <= i < |ps| && q in rest ==> Better(side, ps[i], q)
      decreases rest
    {
      var p := Best(rest, side);
      assert forall q :: q in rest - {p} ==> Better(side, p, q);
      ps := ps + [p];
      rest := rest - {p};
    }
  }

  // ----- matching

  /** The match of a whole level followed by whatever lies behind it. */
  function Then(r: MatchResult, t: seq<Order>, side: Side, limit: nat): MatchResult {
    if r.left == 0 then MatchResult(r.makers + t, r.filled, 0)
    else var r' := Match(t, side, limit, r.left); MatchResult(r'.makers, r.filled + r'.filled, r'.left)
  }

  lemma NothingToMatchEmpty(side: Side, limit: nat, sz: nat)
    ensures Match([], side, limit, sz) == MatchResult([], [], sz)
  {
  }

  /** A taker that is exhausted by the first maker leaves everything behind it alone. */
  lemma ConcatExhausted(lv: seq<Order>, t: seq<Order>, side: Side, limit: nat, sz: nat)
    requires lv != [] && Crosses(side, limit, lv[0].px) && lv[0].sz >= sz
    ensures Match(lv + t, side, limit, sz) == Then(Match(lv, side, limit, sz), t, side, limit)
    ensures Match(lv, side, limit, sz).left == 0
  {
    hide Match;
    assert (lv + t)[0] == lv[0] && (lv + t)[1..] == lv[1..] + t;
    MatchLast(lv, side, limit, sz);
    MatchLast(lv + t, side, limit, sz);
    var head := [lv[0].(sz := lv[0].sz - sz)];
    assert head + (lv[1..] + t) == (head + lv[1..]) + t;
  }

  /** A taker that takes the first maker whole goes on with the rest. */
  lemma ConcatGoesOn(lv: seq<Order>, t: seq<Order>, side: Side, limit: nat, sz: nat)
    requires lv != [] && Crosses(side, limit, lv[0].px) && lv[0].sz < sz
    requires var r := Match(lv[1..], side, limit, sz - lv[0].sz);
             Match(lv[1..] + t, side, limit, sz - lv[0].sz) == Then(r, t, side, limit)
    ensures Match(lv + t, side, limit, sz) == Then(Match(lv, side, limit, sz), t, side, limit)
  {
    hide Match;
    assert (lv + t)[0] == lv[0] && (lv + t)[1..] == lv[1..] + t;
    MatchUnfold(lv, side, limit, sz);
    MatchUnfold(lv + t, side, limit, sz);
    var r1 := Match(lv[1..], side, limit, sz - lv[0].sz);
    var r2 := Match(t, side, limit, r1.left);
    assert [lv[0].oid] + (r1.filled + r2.filled) == ([lv[0].oid] + r1.filled) + r2.filled;
  }

  /** Filling a whole level and then the makers behind it is matching their concatenation. */
  lemma {:induction false} MatchConcat(lv: seq<Order>, t: seq<Order>, side: Side, limit: nat, sz: nat)
    requires forall i :: 0 <= i < |lv| ==> Crosses(side, limit, lv[i].px)
    requires lv == [] ==> sz > 0
    ensures var r := Match(lv, side, limit, sz);
            && (r.left > 0 ==> r.makers == [])
            && Match(lv + t, side, limit, sz) == Then(r, t, side, limit)
  {
    hide Match;
    if lv == [] {
      NothingToMatchEmpty(side, limit, sz);
      assert lv + t == t && forall x: seq<nat> :: [] + x == x;
    } else if lv[0].sz >= sz {
      ConcatExhausted(lv, t, side, limit, sz);
    } else {
      MatchConcat(lv[1..], t, side, limit, sz - lv[0].sz);
      ConcatGoesOn(lv, t, side, limit, sz);
      MatchUnfold(lv, side, limit, sz);
    }
  }

  /** One turn of the inner loop, on the level's value. */
  lemma MatchStep(cur: seq<Order>, side: Side, limit: nat, sz: nat)
    requires cur != [] && Crosses(side, limit, cur[0].px)
    ensures var m, q := cur[0], Min(sz, cur[0].sz);
            var filled := if m.sz <= sz then [m.oid] else [];
            && (m.sz > q ==> sz - q == 0)
            && (sz - q > 0 ==> Filled(cur, q) == cur[1..])
            && Match(cur, side, limit, sz) ==
               if sz - q == 0 then MatchResult(Filled(cur, q), filled, 0)
               else var r := Match(Filled(cur, q), side, limit, sz - q); r.(filled := filled + r.filled)
  {
  }

  /** The level after one fill of its head, which leaves when it reaches size zero. */
  function Filled(cur: seq<Order>, q: nat): seq<Order>
    requires cur != [] && q <= cur[0].sz
  {
    if cur[0].sz == q then cur[1..] else [cur[0].(sz := cur[0].sz - q)] + cur[1..]
  }

  method FillHead(list: Level, maker: Order, sz: nat, ghost cur: seq<Order>) returns (left: nat, filled: seq<nat>)
    requires Holds(list, cur) && cur != [] && cur[0] == maker
    modifies list
    ensures Holds(list, Filled(cur, Min(sz, maker.sz)))
    ensures left == sz - Min(sz, maker.sz)
    ensures filled == if maker.sz <= sz then [maker.oid] else []
  {
    hide Linked, Indexed, EntriesOf;
    var q := Min(sz, maker.sz);
    left, filled := sz - q, [];
    list.SetHeadValue(maker.(sz := maker.sz - q));
    if maker.sz - q == 0 {
      filled := [maker.oid];
      var _ := list.RemoveFront();
      assert list.Entries() == Keyed(cur[1..]);
    } else {
      assert list.Entries() == Keyed([maker.(sz := maker.sz - q)] + cur[1..]);
    }
  }

  /** The inner loop: fill from the head of one list until it or the taker is exhausted. */
  method MatchLevel(list: Level, side: Side, limit: nat, sz: nat, ghost lv: seq<Order>) returns (left: nat,
                    filled: seq<nat>)
    requires Holds(list, lv) && lv != []
    requires forall i :: 0 <= i < |lv| ==> Crosses(side, limit, lv[i].px)
    modifies list
    ensures var r := Match(lv, side, limit, sz);
            Holds(list, r.makers) && left == r.left && filled == r.filled
  {
    hide Match, LinkedList.Valid, LinkedList.Entries, Filled;
    left, filled := sz, [];
    ghost var cur := lv;
    ghost var goal := Match(lv, side, limit, sz);
    var head := list.HeadValue();
    while head.Some?
      invariant Holds(list, cur) && head == if cur == [] then None else Some(cur[0])
      invariant forall i :: 0 <= i < |cur| ==> Crosses(side, limit, cur[i].px)
      invariant var r := Match(cur, side, limit, left); goal == MatchResult(r.makers, filled + r.filled, r.left)
      decreases |cur|
    {
      MatchStep(cur, side, limit, left);
      var left', filled' := FillHead(list, head.value, left, cur);
      cur := Filled(cur, Min(left, head.value.sz));
      left, filled := left', filled + filled';
      if left == 0 {
        break;
      }
      head := list.HeadValue();
    }
    NothingToMatchEmpty(side, limit, left);
  }

  /** Midway through matching: the prices in `gone` are drained, every other list holds its level of rest. */
  ghost predicate Remaining(m: map<nat, Level>, gone: set<nat>, rest: seq<Order>)
    reads m.Values
  {
    && (forall p, q :: p in m && q in m && p != q ==> m[p] != m[q])
    && (forall p :: p in m ==> Holds(m[p], LevelAt(rest, p)) && (LevelAt(rest, p) == [] <==> p in gone))
    && (forall i :: 0 <= i < |rest| ==> rest[i].px in m)
  }

  /** Replacing the best level of a side changes no other level. */
  lemma ReplaceBestLevel(lv: seq<Order>, lv': seq<Order>, t: seq<Order>, px: nat)
    requires forall i :: 0 <= i < |lv| ==> lv[i].px == px
    requires forall i :: 0 <= i < |lv'| ==> lv'[i].px == px
    requires LevelAt(t, px) == []
    ensures LevelAt(lv' + t, px) == lv'
    ensures forall q :: q != px ==> LevelAt(lv' + t, q) == LevelAt(lv + t, q)
  {
    hide LevelAt;
    WholeLevel(lv', px);
    LevelAtConcat(lv', t, px);
    forall q | q != px ensures LevelAt(lv' + t, q) == LevelAt(lv + t, q) {
      LevelAtConcat(lv', t, q);
      LevelAtConcat(lv, t, q);
      LevelAtFacts(lv, q);
      LevelAtFacts(lv', q);
    }
  }

  lemma {:induction false} WholeLevel(s: seq<Order>, px: nat)
    requires forall i :: 0 <= i < |s| ==> s[i].px == px
    ensures LevelAt(s, px) == s
  {
    if s != [] {
      WholeLevel(s[1..], px);
    }
  }

  lemma MatchKeepsPrices(lv: seq<Order>, side: Side, limit: nat, sz: nat, px: nat)
    requires forall i :: 0 <= i < |lv| ==> lv[i].px == px
    ensures var r := Match(lv, side, limit, sz); forall i :: 0 <= i < |r.makers| ==> r.makers[i].px == px
  {
    MatchShape(lv, side, limit, sz);
    hide Match, Total;
  }

  /** What one level's match makes of the side and of the overall match. */
  lemma LevelTurn(rest: seq<Order>, side: Side, limit: nat, sz: nat, px: nat)
    requires Sorted(rest, Opposite(side)) && LevelAt(rest, px) != [] && Crosses(side, limit, px)
    requires forall i :: 0 <= i < |rest| ==> !Better(Opposite(side), rest[i].px, px)
    ensures var lv := LevelAt(rest, px); |lv| <= |rest| && Sorted(rest[|lv|..], Opposite(side))
    ensures var lv := LevelAt(rest, px);
            var t, r := rest[|lv|..], Match(lv, side, limit, sz);
            var rest' := r.makers + t;
            && (forall i :: 0 <= i < |lv| ==> Crosses(side, limit, lv[i].px))
            && (forall q :: q != px ==> LevelAt(rest', q) == LevelAt(rest, q))
            && LevelAt(rest', px) == r.makers
            && (forall i :: 0 <= i < |rest'| ==> rest'[i].px == px || rest'[i] in rest)
            && (r.left > 0 ==> rest' == t && r.makers == [])
            && Match(rest, side, limit, sz) == Then(r, t, side, limit)
  {
    hide LevelAt, Match;
    var lv := LevelAt(rest, px);
    BestLevelIsPrefix(rest, Opposite(side), px);
    LevelAtFacts(rest, px);
    var t := rest[|lv|..];
    assert rest == lv + t;
    LevelAtFacts(t, px);
    MatchKeepsPrices(lv, side, limit, sz, px);
    MatchConcat(lv, t, side, limit, sz);
    ReplaceBestLevel(lv, Match(lv, side, limit, sz).makers, t, px);
  }

  lemma NothingToMatch(rest: seq<Order>, side: Side, limit: nat, sz: nat, px: nat)
    requires !Crosses(side, limit, px)
    requires forall i :: 0 <= i < |rest| ==> !Better(Opposite(side), rest[i].px, px)
    ensures Match(rest, side, limit, sz) == MatchResult(rest, [], sz)
  {
  }

  lemma NoneGone(m: map<nat, Level>, gone: set<nat>, rest: seq<Order>, i: nat)
    requires Remaining(m, gone, rest) && i < |rest|
    ensures rest[i].px !in gone && rest[i].px in m
  {
    LevelAtFacts(rest, rest[i].px);
  }

  lemma NoneBetter(m: map<nat, Level>, gone: set<nat>, rest: seq<Order>, side: Side, ps: seq<nat>, i: nat)
    requires Remaining(m, gone, rest) && Ranked(ps, side) && i < |ps|
    requires forall p :: p in gone <==> p in ps[..i]
    requires forall p :: p in m ==> p in ps
    ensures forall k :: 0 <= k < |rest| ==> !Better(side, rest[k].px, ps[i])
    ensures ps[i] !in gone
  {
    hide LevelAt, Holds;
    forall j | 0 <= j < i ensures ps[j] in gone {
      assert ps[..i][j] == ps[j];
    }
    forall k | 0 <= k < |rest| ensures !Better(side, rest[k].px, ps[i]) {
      NoneGone(m, gone, rest, k);
      var j :| 0 <= j < |ps| && ps[j] == rest[k].px;
    }
  }

  /** The outer loop's body for one crossing price. */
  method MatchPrice(m: map<nat, Level>, px: nat, side: Side, limit: nat, sz: nat, ghost gone: set<nat>,
                    ghost rest: seq<Order>)
    returns (left: nat, filled: seq<nat>, empty: bool, ghost rest': seq<Order>)
    requires Remaining(m, gone, rest) && Sorted(rest, Opposite(side))
    requires px in m && px !in gone && Crosses(side, limit, px)
    requires forall i :: 0 <= i < |rest| ==> !Better(Opposite(side), rest[i].px, px)
    modifies m[px]
    ensures Remaining(m, if empty then gone + {px} else gone, rest')
    ensures left > 0 ==> empty && Sorted(rest', Opposite(side))
    ensures Match(rest, side, limit, sz) ==
            if left == 0 then MatchResult(rest', filled, 0)
            else var r := Match(rest', side, limit, left); MatchResult(r.makers, filled + r.filled, r.left)
  {
    hide Match, LevelAt, LinkedList.Valid, LinkedList.Entries;
    LevelTurn(rest, side, limit, sz, px);
    ghost var lv := LevelAt(rest, px);
    left, filled := MatchLevel(m[px], side, limit, sz, lv);
    rest' := Match(lv, side, limit, sz).makers + rest[|lv|..];
    empty := m[px].IsEmpty();
  }

  method MatchOrder(m: map<nat, Level>, side: Side, limit: nat, sz: nat, ghost s: seq<Order>)
    returns (m': map<nat, Level>, left: nat, filled: seq<nat>)
    requires Represents(m, s, Opposite(side))
    modifies m.Values
    ensures var r := Match(s, side, limit, sz);
            Represents(m', r.makers, Opposite(side)) && left == r.left && filled == r.filled
    ensures m'.Keys <= m.Keys && forall p :: p in m' ==> m'[p] == m[p]
    ensures forall p :: p in m && !WithinLimit(side, limit, p) ==> p in m' && m'[p].Entries() == old(m[p].Entries())
    ensures left > 0 ==> forall p :: p in m' ==> !WithinLimit(side, limit, p)
  {
    hide Match, LevelAt, Holds, LevelUnique, Sorted, LinkedList.Entries;
    LevelsBeyondLimit(m, s, side, limit, sz);
    var ps := InPriority(m.Keys, Opposite(side));
    ghost var rest := s;
    ghost var goal := Match(s, side, limit, sz);
    left, filled := sz, [];
    var keysToRemove := {};
    var i := 0;
    while i < |ps|
      invariant 0 <= i <= |ps|
      invariant forall p :: p in keysToRemove <==> p in ps[..i]
      invariant Remaining(m, keysToRemove, rest) && Sorted(rest, Opposite(side))
      invariant var r := Match(rest, side, limit, left); goal == MatchResult(r.makers, filled + r.filled, r.left)
    {
      var px := ps[i];
      NoneBetter(m, keysToRemove, rest, Opposite(side), ps, i);
      if !Crosses(side, limit, px) {
        NothingToMatch(rest, side, limit, left, px);
        break;
      }
      var left', filled', empty;
      left', filled', empty, rest := MatchPrice(m, px, side, limit, left, keysToRemove, rest);
      left, filled := left', filled + filled';
      if empty {
        keysToRemove := keysToRemove + {px};
      }
      if left == 0 {
        break;
      }
      i := i + 1;
    }
    if i == |ps| {
      AllGone(m, keysToRemove, rest, side, limit, left);
    }
    m' := m - keysToRemove;
    MatchedSideOk(s, side, limit, sz);
    WithoutGone(m, keysToRemove, rest, Opposite(side));
    KeptBeyondLimit(m', rest, s, side, limit, sz);
  }

  /** Levels beyond the limit hold the same orders before and after a match. */
  lemma LevelsBeyondLimit(m: map<nat, Level>, s: seq<Order>, side: Side, limit: nat, sz: nat)
    requires Represents(m, s, Opposite(side))
    ensures forall p :: p in m && !WithinLimit(side, limit, p) ==>
              var l := LevelAt(Match(s, side, limit, sz).makers, p); l != [] && m[p].Entries() == Keyed(l)
  {
    hide Match, LevelAt, SideOk, WithinLimit, LinkedList.Entries, LinkedList.Valid;
    forall p | p in m && !WithinLimit(side, limit, p)
      ensures LevelAt(Match(s, side, limit, sz).makers, p) == LevelAt(s, p)
    {
      LevelBeyondLimit(s, side, limit, sz, p);
    }
  }

  lemma LevelBeyondLimit(s: seq<Order>, side: Side, limit: nat, sz: nat, px: nat)
    requires !WithinLimit(side, limit, px)
    ensures LevelAt(Match(s, side, limit, sz).makers, px) == LevelAt(s, px)
  {
    TradesWithinLimit(s, side, limit, sz);
    hide Match, LevelAt;
    var r := Match(s, side, limit, sz);
    var k := |r.filled|;
    assert s == s[..k] + s[k..];
    LevelAtConcat(s[..k], s[k..], px);
    hide WithinLimit;
    LevelAtNowhere(s[..k], px);
    if r.makers != s[k..] {
      var i :| k <= i < |s| && r.makers[i - k] != s[i];
      assert r.makers[1..] == s[k..][1..];
      LevelAtTail(r.makers, px);
      LevelAtTail(s[k..], px);
    }
  }

  lemma KeptBeyondLimit(m: map<nat, Level>, rest: seq<Order>, s: seq<Order>, side: Side, limit: nat, sz: nat)
    requires Represents(m, rest, Opposite(side)) && rest == Match(s, side, limit, sz).makers
    requires Sorted(s, Opposite(side))
    ensures forall p :: LevelAt(rest, p) != [] ==> p in m && m[p].Entries() == Keyed(LevelAt(rest, p))
    ensures Match(s, side, limit, sz).left > 0 ==> forall p :: p in m ==> !WithinLimit(side, limit, p)
  {
    hide Match, LevelAt, SideOk, LinkedList.Entries, LinkedList.Valid, Sorted;
    forall p | LevelAt(rest, p) != [] ensures p in m {
      LevelAtFacts(rest, p);
    }
    if Match(s, side, limit, sz).left > 0 {
      LeftoverBeyondLimit(s, side, limit, sz);
      forall p | p in m ensures !WithinLimit(side, limit, p) {
        LevelAtFacts(rest, p);
      }
    }
  }

  lemma MatchedSideOk(s: seq<Order>, side: Side, limit: nat, sz: nat)
    requires SideOk(s, Opposite(side))
    ensures SideOk(Match(s, side, limit, sz).makers, Opposite(side))
  {
    hide Match, SideOk;
    MatchSide(s, side, limit, sz);
  }

  /** Once the drained levels are removed the map represents what is left. */
  lemma WithoutGone(m: map<nat, Level>, gone: set<nat>, rest: seq<Order>, side: Side)
    requires Remaining(m, gone, rest) && SideOk(rest, side)
    ensures Represents(m - gone, rest, side)
  {
    hide SideOk, LevelAt, Holds;
    forall k | 0 <= k < |rest| ensures rest[k].px in m - gone {
      NoneGone(m, gone, rest, k);
    }
  }

  lemma AllGone(m: map<nat, Level>, gone: set<nat>, rest: seq<Order>, side: Side, limit: nat, sz: nat)
    requires Remaining(m, gone, rest) && m.Keys <= gone
    ensures rest == [] && Match(rest, side, limit, sz) == MatchResult([], [], sz)
  {
    if rest != [] {
      NoneGone(m, gone, rest, 0);
    }
  }

  // ----- changing one level

  /** The same map of lists represents the side in which only the level at px changed. */
  lemma LevelChanged(m: map<nat, Level>, m': map<nat, Level>, s: seq<Order>, s': seq<Order>, side: Side, px: nat)
    requires SideOk(s', side)
    requires forall i :: 0 <= i < |s| ==> s[i].px in m
    requires forall p, q :: p in m' && q in m' && p != q ==> m'[p] != m'[q]
    requires forall p :: p != px ==> (p in m <==> p in m')
    requires forall p :: p in m' && p != px ==> Holds(m'[p], LevelAt(s, p)) && LevelAt(s, p) != []
    requires forall p :: p != px ==> LevelAt(s', p) == LevelAt(s, p)
    requires px in m' <==> LevelAt(s', px) != []
    requires px in m' ==> Holds(m'[px], LevelAt(s', px))
    ensures Represents(m', s', side)
  {
    hide LevelUnique, Sorted, Holds, LevelAt;
    forall i | 0 <= i < |s'| ensures s'[i].px in m' {
      LevelAtFacts(s', s'[i].px);
      if s'[i].px != px {
        assert LevelAt(s, s'[i].px) == LevelAt(s', s'[i].px);
        LevelAtFacts(s, s'[i].px);
      }
    }
  }

  lemma InsertLevels(s: seq<Order>, i: nat, o: Order)
    requires i <= |s|
    ensures forall q :: q != o.px ==> LevelAt(InsertAt(s, i, o), q) == LevelAt(s, q)
    ensures var l, k := LevelAt(s, o.px), |LevelAt(s[..i], o.px)|;
            && k <= |l| && LevelAt(InsertAt(s, i, o), o.px) != []
            && Keyed(LevelAt(InsertAt(s, i, o), o.px)) == InsertAt(Keyed(l), k, (o.oid, o))
  {
    hide LevelAt;
    forall q | q != o.px ensures LevelAt(InsertAt(s, i, o), q) == LevelAt(s, q) {
      LevelAtInsert(s, i, o, q);
    }
    LevelAtInsert(s, i, o, o.px);
  }

  lemma PushLevels(s: seq<Order>, o: Order)
    requires SideOk(s, o.side)
    ensures var s', l := Place(s, o, None).value, LevelAt(s, o.px);
            && (forall q :: q != o.px ==> LevelAt(s', q) == LevelAt(s, q))
            && LevelAt(s', o.px) != []
            && Keyed(LevelAt(s', o.px)) == if HasKey(Keyed(l), o.oid) then Keyed(l) else Keyed(l) + [(o.oid, o)]
  {
    LevelPosition(s, o.px, o.oid);
    LevelBeforeBack(s, o.side, o.px);
    InsertLevels(s, BackOf(s, o.side, o.px), o);
    LevelAtFacts(s, o.px);
    hide LevelAt, BackOf, LevelUnique, Sorted, IndexOf;
  }

  lemma InsertBeforeLevels(s: seq<Order>, o: Order, x: nat)
    ensures var p, l := Place(s, o, Some(x)), LevelAt(s, o.px);
            && (p.Some? <==> !HasKey(Keyed(l), o.oid) && HasKey(Keyed(l), x))
            && (p.Some? ==>
                  && (forall q :: q != o.px ==> LevelAt(p.value, q) == LevelAt(s, q))
                  && LevelAt(p.value, o.px) != []
                  && Keyed(LevelAt(p.value, o.px)) == InsertAt(Keyed(l), IndexOf(Keyed(l), x), (o.oid, o)))
  {
    LevelPosition(s, o.px, o.oid);
    LevelPosition(s, o.px, x);
    InsertLevels(s, Find(s, o.px, x), o);
    hide LevelAt, IndexOf, Find;
  }

  /** Rests an order on its own side: at the back of its level, or directly in front of `before`. */
  method AddOrderToBook(m: map<nat, Level>, o: Order, before: Option<nat>, ghost s: seq<Order>)
    returns (m': map<nat, Level>, ok: bool)
    requires Represents(m, s, o.side)
    modifies m.Values
    ensures ok == Place(s, o, before).Some?
    ensures Represents(m', if ok then Place(s, o, before).value else s, o.side)
    ensures forall p :: p in m' ==> m'[p] in m.Values || fresh(m'[p])
  {
    hide LevelAt, Place, LinkedList.Valid, LinkedList.Entries, LevelUnique, Sorted, HasKey, IndexOf;
    m' := m;
    if o.px !in m {
      var empty := new LinkedList<nat, Order>();
      m' := m'[o.px := empty];
      LevelAtFacts(s, o.px);
      assert Keyed(LevelAt(s, o.px)) == [];
    }
    PlaceSide(s, o, before);
    ok, m' := AddToLevel(m', o, before, LevelAt(s, o.px), s);
    LevelChanged(m, m', s, if ok then Place(s, o, before).value else s, o.side, o.px);
  }

  method AddToLevel(m: map<nat, Level>, o: Order, before: Option<nat>, ghost l: seq<Order>, ghost s: seq<Order>)
    returns (ok: bool, m': map<nat, Level>)
    requires o.px in m && Holds(m[o.px], l) && l == LevelAt(s, o.px) && SideOk(s, o.side)
    modifies m[o.px]
    ensures ok == Place(s, o, before).Some?
    ensures var s' := if ok then Place(s, o, before).value else s;
            && (forall q :: q != o.px ==> LevelAt(s', q) == LevelAt(s, q))
            && m' == (if LevelAt(s', o.px) == [] then m - {o.px} else m)
            && (LevelAt(s', o.px) != [] ==> Holds(m[o.px], LevelAt(s', o.px)))
  {
    hide LevelAt, Place, LinkedList.Valid, LinkedList.Entries, LevelUnique, Sorted, HasKey, IndexOf;
    m' := m;
    var list := m[o.px];
    match before {
      case None =>
        PlaceNeverFails(s, o);
        PushLevels(s, o);
        var _ := list.PushBack(o.oid, o);
        ok := true;
      case Some(x) =>
        InsertBeforeLevels(s, o, x);
        ok := list.InsertBefore(x, o.oid, o);
        var empty := list.IsEmpty();
        if empty {
          m' := m - {o.px};
        }
    }
  }

  lemma PlaceNeverFails(s: seq<Order>, o: Order)
    ensures Place(s, o, None).Some?
  {
  }

  // ----- the book

  class OrderBook {
    var index: map<nat, (Side, nat)>
    var bids: map<nat, Level>
    var asks: map<nat, Level>
    ghost var book: Book // the flat book this object stands for

    ghost predicate Valid()
      reads this, bids.Values, asks.Values
    {
      && Represents(bids, book.bids, Bid)
      && Represents(asks, book.asks, Ask)
      && bids.Values !! asks.Values
      && index == book.index
    }

    constructor ()
      ensures Valid() && book == EMPTY
      ensures bids == map[] && asks == map[]
    {
      index, bids, asks := map[], map[], map[];
      book := EMPTY;
    }

    ghost function Lists(): set<Level>
      reads this
    {
      bids.Values + asks.Values
    }

    /** Matches the order against the other side and drops the filled makers from the index. */
    method MatchTaker(o: Order) returns (left: nat)
      requires Valid()
      modifies this, bids.Values, asks.Values
      ensures Valid()
      ensures book == Matched(old(book), o.side, o.px, o.sz) && left == Leftover(old(book), o)
      ensures Lists() <= old(Lists())
    {
      hide Represents, Match, Matched, Leftover;
      AfterMatch(book, o);
      var filled;
      if o.side.Ask? {
        left, filled := MatchBids(o);
      } else {
        left, filled := MatchAsks(o);
      }
      index := index - (set oid | oid in filled);
      book := Matched(book, o.side, o.px, o.sz);
    }

    ghost predicate SidesHeld(b: Book)
      reads this, bids.Values, asks.Values
    {
      Represents(bids, b.bids, Bid) && Represents(asks, b.asks, Ask) && bids.Values !! asks.Values
    }

    method MatchBids(o: Order) returns (left: nat, filled: seq<nat>)
      requires Valid()
      modifies this`bids, bids.Values
      ensures var r := Match(book.bids, Ask, o.px, o.sz);
              SidesHeld(book.(bids := r.makers)) && left == r.left && filled == r.filled
      ensures bids.Values <= old(bids.Values)
    {
      hide Represents, Match;
      var levels;
      levels, left, filled := MatchOrder(bids, Ask, o.px, o.sz, book.bids);
      SomeLevels(levels, bids);
      bids := levels;
    }

    method MatchAsks(o: Order) returns (left: nat, filled: seq<nat>)
      requires Valid()
      modifies this`asks, asks.Values
      ensures var r := Match(book.asks, Bid, o.px, o.sz);
              SidesHeld(book.(asks := r.makers)) && left == r.left && filled == r.filled
      ensures asks.Values <= old(asks.Values)
    {
      hide Represents, Match;
      var levels;
      levels, left, filled := MatchOrder(asks, Bid, o.px, o.sz, book.asks);
      SomeLevels(levels, asks);
      asks := levels;
    }

    method Rest(o: Order, before: Option<nat>) returns (ok: bool)
      requires Valid()
      modifies this, bids.Values, asks.Values
      ensures Valid()
      ensures Reply(book, ok) == PlaceOrder(old(book), o, before)
      ensures fresh(Lists() - old(Lists()))
    {
      hide Represents, PlaceOrder, Place;
      Placed(book, o, before);
      if o.side.Ask? {
        asks, ok := AddOrderToBook(asks, o, before, book.asks);
      } else {
        bids, ok := AddOrderToBook(bids, o, before, book.bids);
      }
      if ok {
        index := index[o.oid := (o.side, o.px)];
      }
      book := PlaceOrder(book, o, before).book;
    }

    method AddOrderBefore(o: Order, before: Option<nat>) returns (ok: bool)
      requires Valid()
      modifies this, bids.Values, asks.Values
      ensures Valid()
      ensures Reply(book, ok) == AddBefore(old(book), o, before)
      ensures fresh(Lists() - old(Lists()))
    {
      hide OrderBook.Valid, PlaceOrder, Matched;
      var left := MatchTaker(o);
      ok := true;
      if left > 0 {
        ok := Rest(o.(sz := left), before);
      }
    }

    method CancelOrder(oid: nat) returns (ok: bool)
      requires Valid()
      modifies this, bids.Values, asks.Values
      ensures Valid()
      ensures Reply(book, ok) == Cancel(old(book), oid)
      ensures Lists() <= old(Lists())
    {
      hide Represents, Find, Rests, Cancel, Without;
      if oid !in index {
        NotCancelled(book, oid);
        return false;
      }
      Cancelled(book, oid);
      var (side, px) := index[oid];
      if side.Ask? {
        asks, ok := RemoveFrom(asks, Ask, px, oid, book.asks);
      } else {
        bids, ok := RemoveFrom(bids, Bid, px, oid, book.bids);
      }
      index, book := index - {oid}, Cancel(book, oid).book;
    }

    method ModifySz(oid: nat, sz: nat) returns (ok: bool)
      requires Valid()
      modifies this, bids.Values, asks.Values
      ensures Valid()
      ensures Reply(book, ok) == FlatBook.ModifySz(old(book), oid, sz)
      ensures Lists() == old(Lists())
    {
      hide Represents, Find, Rests;
      if oid !in index {
        return false;
      }
      var (side, px) := index[oid];
      if side.Ask? {
        ok := ResizeIn(asks, Ask, px, oid, sz, book.asks);
      } else {
        ok := ResizeIn(bids, Bid, px, oid, sz, book.bids);
      }
      book := FlatBook.ModifySz(book, oid, sz).book;
    }

    method ToSnapshot() returns (snap: Snapshot)
      requires Valid()
      ensures snap == Snapshots.ToSnapshot(book)
    {
      hide Represents;
      var bs := Flatten(bids, Bid, book.bids);
      var as_ := Flatten(asks, Ask, book.asks);
      snap := Snapshot(bs, as_);
    }
  }

  lemma SomeLevels(m': map<nat, Level>, m: map<nat, Level>)
    requires m'.Keys <= m.Keys && forall p :: p in m' ==> m'[p] == m[p]
    ensures m'.Values <= m.Values
  {
  }

  lemma NotCancelled(b: Book, oid: nat)
    requires oid !in b.index
    ensures Cancel(b, oid) == Reply(b, false)
  {
  }

  lemma Cancelled(b: Book, oid: nat)
    requires oid in b.index
    ensures var r, (side, px) := Cancel(b, oid), b.index[oid];
            var s := OnSide(b, side);
            && r.ok == Rests(s, px, oid)
            && r.book.index == b.index - {oid}
            && r.book.bids == (if r.ok && side.Bid? then Without(s, Find(s, px, oid)) else b.bids)
            && r.book.asks == (if r.ok && side.Ask? then Without(s, Find(s, px, oid)) else b.asks)
  {
    hide Find;
  }

  lemma AfterMatch(b: Book, o: Order)
    ensures var r, m := Matched(b, o.side, o.px, o.sz), Match(OnSide(b, Opposite(o.side)), o.side, o.px, o.sz);
            && Leftover(b, o) == m.left && r.index == b.index - (set oid | oid in m.filled)
            && r.bids == (if o.side.Ask? then m.makers else b.bids)
            && r.asks == (if o.side.Bid? then m.makers else b.asks)
  {
    hide Match;
  }

  lemma Placed(b: Book, o: Order, before: Option<nat>)
    ensures var r, p := PlaceOrder(b, o, before), Place(OnSide(b, o.side), o, before);
            && r.ok == p.Some?
            && r.book.index == (if r.ok then b.index[o.oid := (o.side, o.px)] else b.index)
            && r.book.bids == (if r.ok && o.side.Bid? then p.value else b.bids)
            && r.book.asks == (if r.ok && o.side.Ask? then p.value else b.asks)
  {
    hide Place;
  }

  /** Removes an order from its level; an emptied level goes as well. */
  method RemoveFrom(m: map<nat, Level>, side: Side, px: nat, oid: nat, ghost s: seq<Order>)
    returns (m': map<nat, Level>, ok: bool)
    requires Represents(m, s, side)
    modifies m.Values
    ensures ok == Rests(s, px, oid)
    ensures Represents(m', if ok then Without(s, Find(s, px, oid)) else s, side)
    ensures m'.Values <= m.Values
  {
    hide LevelAt, LinkedList.Valid, LinkedList.Entries, LevelUnique, Sorted, IndexOf;
    ghost var i := Find(s, px, oid);
    LevelPosition(s, px, oid);
    m' := m;
    if px !in m {
      LevelAtFacts(s, px);
      return m, false;
    }
    ok := m[px].RemoveNode(oid);
    if ok {
      DropSide(s, side, px, oid);
      WithoutLevels(s, i, px);
    }
    var empty := m[px].IsEmpty();
    if empty {
      m' := m - {px};
    }
    LevelChanged(m, m', s, if ok then Without(s, i) else s, side, px);
  }

  lemma WithoutLevels(s: seq<Order>, i: nat, px: nat)
    requires i < |s| && s[i].px == px
    ensures forall q :: q != px ==> LevelAt(Without(s, i), q) == LevelAt(s, q)
    ensures var k := |LevelAt(s[..i], px)|;
            k < |LevelAt(s, px)| && Keyed(LevelAt(Without(s, i), px)) == Without(Keyed(LevelAt(s, px)), k)
  {
    hide LevelAt;
    forall q | q != px ensures LevelAt(Without(s, i), q) == LevelAt(s, q) {
      LevelAtWithout(s, i, q);
    }
    LevelAtWithout(s, i, px);
  }

  method ResizeIn(m: map<nat, Level>, side: Side, px: nat, oid: nat, sz: nat, ghost s: seq<Order>) returns (ok: bool)
    requires Represents(m, s, side)
    modifies m.Values
    ensures ok == Rests(s, px, oid)
    ensures Represents(m, if ok then s[Find(s, px, oid) := s[Find(s, px, oid)].(sz := sz)] else s, side)
  {
    hide LevelAt, LinkedList.Valid, LinkedList.Entries, LevelUnique, Sorted, IndexOf;
    ghost var i := Find(s, px, oid);
    LevelPosition(s, px, oid);
    if px !in m {
      LevelAtFacts(s, px);
      return false;
    }
    var order := m[px].NodeValue(oid);
    if order.None? {
      return false;
    }
    UpdateLevels(s, i, sz, px);
    ResizeSide(s, side, i, sz);
    m[px].SetNodeValue(oid, order.value.(sz := sz));
    LevelChanged(m, m, s, s[i := s[i].(sz := sz)], side, px);
    ok := true;
  }

  lemma UpdateLevels(s: seq<Order>, i: nat, sz: nat, px: nat)
    requires i < |s| && s[i].px == px
    ensures var s' := s[i := s[i].(sz := sz)];
            forall q :: q != px ==> LevelAt(s', q) == LevelAt(s, q)
    ensures var s', k := s[i := s[i].(sz := sz)], |LevelAt(s[..i], px)|;
            && k < |LevelAt(s, px)| && LevelAt(s, px)[k] == s[i] && LevelAt(s', px) != []
            && Keyed(LevelAt(s', px)) == Keyed(LevelAt(s, px))[k := (s[i].oid, s[i].(sz := sz))]
  {
    hide LevelAt;
    forall q | q != px ensures LevelAt(s[i := s[i].(sz := sz)], q) == LevelAt(s, q) {
      LevelAtUpdate(s, i, sz, q);
    }
    LevelAtUpdate(s, i, sz, px);
    LevelAtUpdate(s, i, s[i].sz, px);
    assert s[i := s[i].(sz := s[i].sz)] == s;
  }

  lemma ValuesOfKeyed(s: seq<Order>)
    ensures Values(Keyed(s)) == s
  {
  }

  /** Concatenates the levels, best price first. */
  method Flatten(m: map<nat, Level>, side: Side, ghost s: seq<Order>) returns (res: seq<Order>)
    requires Represents(m, s, side)
    ensures res == s
  {
    hide LevelAt, LinkedList.Valid, LinkedList.Entries, LevelUnique, Sorted, Keyed;
    var ps := InPriority(m.Keys, side);
    res := [];
    ghost var rest := s;
    for i := 0 to |ps|
      invariant res + rest == s && Sorted(rest, side)
      invariant forall j :: i <= j < |ps| ==> LevelAt(rest, ps[j]) == LevelAt(s, ps[j])
      invariant forall k :: 0 <= k < |rest| ==> rest[k].px in ps[i..]
    {
      var px := ps[i];
      NextLevel(rest, side, ps[i..]);
      assert px in ps;
      var vs := m[px].ToVec();
      ValuesOfKeyed(LevelAt(rest, px));
      res := res + vs;
      rest := rest[|vs|..];
    }
    FirstIn(rest);
  }

  /** The best remaining price heads the remaining orders. */
  lemma NextLevel(rest: seq<Order>, side: Side, ps: seq<nat>)
    requires ps != [] && Ranked(ps, side) && Sorted(rest, side)
    requires forall k :: 0 <= k < |rest| ==> rest[k].px in ps
    ensures var lv := LevelAt(rest, ps[0]);
            && |lv| <= |rest| && rest == lv + rest[|lv|..]
            && Sorted(rest[|lv|..], side)
            && (forall j :: 1 <= j < |ps| ==> LevelAt(rest[|lv|..], ps[j]) == LevelAt(rest, ps[j]))
            && (forall k :: |lv| <= k < |rest| ==> rest[k].px in ps[1..])
  {
    hide LevelAt;
    var lv := LevelAt(rest, ps[0]);
    BestLevelIsPrefix(rest, side, ps[0]);
    LevelAtFacts(rest, ps[0]);
    assert rest == lv + rest[|lv|..];
    forall j | 1 <= j < |ps| ensures LevelAt(rest[|lv|..], ps[j]) == LevelAt(rest, ps[j]) {
      LevelAtConcat(lv, rest[|lv|..], ps[j]);
      LevelAtFacts(lv, ps[j]);
      assert Better(side, ps[0], ps[j]);
    }
  }

  /** Rebuilds a book from a snapshot, order by order. */
  method FromSnapshot(snap: Snapshot, ignoreTriggers: bool) returns (b: OrderBook)
    ensures fresh(b) && fresh(b.Lists()) && b.Valid()
    ensures b.book == Snapshots.FromSnapshot(snap, ignoreTriggers)
  {
    hide OrderBook.Valid, AddBefore;
    b := new OrderBook();
    var snap1 := snap;
    if ignoreTriggers {
      snap1 := RemoveTriggersInPlace(snap);
    }
    var orders := snap1.bids + snap1.asks;
    for i := 0 to |orders|
      invariant fresh(b) && fresh(b.Lists()) && b.Valid()
      invariant b.book == AddAll(EMPTY, orders[..i])
    {
      AddAllConcat(EMPTY, orders[..i], [orders[i]]);
      assert orders[..i + 1] == orders[..i] + [orders[i]];
      assert AddAll(b.book, [orders[i]]) == AddBefore(b.book, orders[i], None).book;
      var inserted := b.AddOrderBefore(orders[i], None);
    }
    assert orders[..|orders|] == orders;
    AddAllConcat(EMPTY, snap1.bids, snap1.asks);
  }

  method RemoveTriggersInPlace(snap: Snapshot) returns (r: Snapshot)
    ensures r == RemoveTriggers(snap)
  {
    var bidOids, askOids := OidSet(snap.bids), OidSet(snap.asks);
    var bs, as_ := snap.bids, snap.asks;
    while bs != [] && bs[|bs| - 1].oid in bidOids && bs[|bs| - 1].oid in askOids
      invariant TrimTail(bs, bidOids * askOids) == TrimTail(snap.bids, bidOids * askOids)
      decreases |bs|
    {
      bs := bs[..|bs| - 1];
    }
    while as_ != [] && as_[|as_| - 1].oid in bidOids && as_[|as_| - 1].oid in askOids
      invariant TrimTail(as_, bidOids * askOids) == TrimTail(snap.asks, bidOids * askOids)
      decreases |as_|
    {
      as_ := as_[..|as_| - 1];
    }
    r := Snapshot(bs, as_);
  }
}
