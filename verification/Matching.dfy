/**
 Matching a taker against the opposite side, stated on one price-then-time ordered sequence of
 makers. `MatchShape` says what the outcome is without following the loop.
 */
module Matching {
  import opened Prelude
  import opened Orders

  datatype MatchResult = MatchResult(makers: seq<Order>, filled: seq<nat>, left: nat)

  /** Consume makers from the front: fill the first, drop it when it reaches zero, stop when the taker does. */
  function Match(makers: seq<Order>, side: Side, limit: nat, sz: nat): MatchResult {
    if makers == [] || !Crosses(side, limit, makers[0].px) then MatchResult(makers, [], sz)
    else
      var m := makers[0];
      var q := Min(sz, m.sz);
      if m.sz - q > 0 then MatchResult([m.(sz := m.sz - q)] + makers[1..], [], sz - q)
      else if sz - q == 0 then MatchResult(makers[1..], [m.oid], 0)
      else
        var r := Match(makers[1..], side, limit, sz - q);
        r.(filled := [m.oid] + r.filled)
  }

  lemma MatchUnfold(s: seq<Order>, side: Side, limit: nat, sz: nat)
    requires s != [] && Crosses(side, limit, s[0].px) && s[0].sz < sz
    ensures var r := Match(s[1..], side, limit, sz - s[0].sz);
            Match(s, side, limit, sz) == MatchResult(r.makers, [s[0].oid] + r.filled, r.left)
  {
  }

  lemma MatchLast(s: seq<Order>, side: Side, limit: nat, sz: nat)
    requires s != [] && Crosses(side, limit, s[0].px) && s[0].sz >= sz
    ensures Match(s, side, limit, sz) ==
            if s[0].sz == sz then MatchResult(s[1..], [s[0].oid], 0)
            else MatchResult([s[0].(sz := s[0].sz - sz)] + s[1..], [], 0)
  {
  }

  /**
   The first k makers are taken out whole, and each of them crosses and was reached by a taker
   that still had size (the very first one is offered even to an empty taker).
   */
  ghost predicate TakenWhole(makers: seq<Order>, side: Side, limit: nat, sz: nat, k: nat) {
    && k <= |makers|
    && (forall i :: 0 <= i < k ==> Crosses(side, limit, makers[i].px))
    && Total(makers[..k]) <= sz
    && (forall i :: 0 < i < k ==> Total(makers[..i]) < sz)
  }

  /** What is left of the makers after k whole fills and a final partial fill of size part. */
  function Reduced(makers: seq<Order>, k: nat, part: nat): seq<Order>
    requires k <= |makers|
    requires part > 0 ==> k < |makers| && part < makers[k].sz
  {
    if part == 0 then makers[k..] else [makers[k].(sz := makers[k].sz - part)] + makers[k + 1..]
  }

  /**
   With k = number of filled oids: they are the first k makers in priority order, at most one
   further maker is reduced (and then the taker is exhausted), everything behind is untouched,
   and a taker with size left faces no crossing maker.
   */
  ghost predicate Outcome(makers: seq<Order>, side: Side, limit: nat, sz: nat, r: MatchResult) {
    var k := |r.filled|;
    && TakenWhole(makers, side, limit, sz, k)
    && r.filled == Oids(makers[..k])
    && r.left <= sz - Total(makers[..k])
    && var part := sz - Total(makers[..k]) - r.left;
    && (part > 0 ==> k < |makers| && part < makers[k].sz && r.left == 0 && Crosses(side, limit, makers[k].px))
    && r.makers == Reduced(makers, k, part)
    && (r.left > 0 && k < |makers| ==> !Crosses(side, limit, makers[k].px))
    && (k == 0 && makers != [] && Crosses(side, limit, makers[0].px) ==> sz < makers[0].sz)
  }

  lemma TotalTail(makers: seq<Order>, i: nat)
    requires 0 < i <= |makers|
    ensures Total(makers[..i]) == makers[0].sz + Total(makers[1..][..i - 1])
  {
    assert makers[..i][1..] == makers[1..][..i - 1];
  }

  lemma OutcomeStep(makers: seq<Order>, side: Side, limit: nat, sz: nat, r: MatchResult)
    requires makers != [] && Crosses(side, limit, makers[0].px) && makers[0].sz < sz
    requires Outcome(makers[1..], side, limit, sz - makers[0].sz, r)
    ensures Outcome(makers, side, limit, sz, r.(filled := [makers[0].oid] + r.filled))
  {
    var k := |r.filled|;
    assert Total(makers[1..][..0]) == 0;
    hide Total;
    TotalTail(makers, k + 1);
    forall i | 0 < i < k + 1 ensures Total(makers[..i]) < sz {
      TotalTail(makers, i);
    }
    assert Oids(makers[..k + 1]) == [makers[0].oid] + Oids(makers[1..][..k]);
    assert makers[k + 1..] == makers[1..][k..];
    if k + 1 < |makers| {
      assert makers[k + 2..] == makers[1..][k + 1..];
    }
  }

  lemma {:induction false} MatchShape(makers: seq<Order>, side: Side, limit: nat, sz: nat)
    ensures Outcome(makers, side, limit, sz, Match(makers, side, limit, sz))
  {
    if makers != [] && Crosses(side, limit, makers[0].px) {
      var m := makers[0];
      if m.sz < sz {
        hide Outcome;
        MatchShape(makers[1..], side, limit, sz - m.sz);
        OutcomeStep(makers, side, limit, sz, Match(makers[1..], side, limit, sz - m.sz));
      } else if m.sz == sz {
        TotalTail(makers, 1);
      }
    }
  }

  /** What the taker loses is exactly what the makers lose. */
  lemma MatchConserves(makers: seq<Order>, side: Side, limit: nat, sz: nat)
    ensures var r := Match(makers, side, limit, sz);
            sz - r.left == Total(makers) - Total(r.makers)
  {
    MatchShape(makers, side, limit, sz);
    var r := Match(makers, side, limit, sz);
    var k := |r.filled|;
    var part := sz - Total(makers[..k]) - r.left;
    TotalConcat(makers[..k], makers[k..]);
    assert makers == makers[..k] + makers[k..];
    if part > 0 {
      assert makers[k..][1..] == makers[k + 1..];
      assert r.makers[1..] == makers[k + 1..];
    }
  }

  lemma NoShorterOutcome(makers: seq<Order>, side: Side, limit: nat, sz: nat, r: MatchResult, l: nat)
    requires Outcome(makers, side, limit, sz, r) && TakenWhole(makers, side, limit, sz, l)
    ensures l <= |r.filled|
  {
    var k := |r.filled|;
    if k < l {
      assert makers[..k + 1] == makers[..k] + [makers[k]];
      TotalConcat(makers[..k], [makers[k]]);
      assert Total([makers[k]]) == makers[k].sz + Total([makers[k]][1..]);
      assert makers[..l] == makers[..k + 1] + makers[k + 1..l];
      TotalConcat(makers[..k + 1], makers[k + 1..l]);
    }
  }

  /** The description is complete: only one result satisfies it. */
  lemma OutcomeUnique(makers: seq<Order>, side: Side, limit: nat, sz: nat, r: MatchResult, r': MatchResult)
    requires Outcome(makers, side, limit, sz, r) && Outcome(makers, side, limit, sz, r')
    ensures r == r'
  {
    NoShorterOutcome(makers, side, limit, sz, r, |r'.filled|);
    NoShorterOutcome(makers, side, limit, sz, r', |r.filled|);
  }

  /** After a match that leaves the taker with size, a sorted side holds nothing it would cross. */
  lemma LeftoverFacesNothing(makers: seq<Order>, side: Side, limit: nat, sz: nat)
    requires Sorted(makers, Opposite(side))
    requires Match(makers, side, limit, sz).left > 0
    ensures var r := Match(makers, side, limit, sz);
            forall i :: 0 <= i < |r.makers| ==> !Crosses(side, limit, r.makers[i].px)
  {
    MatchShape(makers, side, limit, sz);
    var r := Match(makers, side, limit, sz);
    var k := |r.filled|;
    assert r.makers == makers[k..];
  }

  // ----- in terms of prices alone

  /** A buyer pays no more than its limit, a seller takes no less. */
  predicate WithinLimit(taker: Side, limit: nat, px: nat) {
    (taker == Bid ==> px <= limit) && (taker == Ask ==> px >= limit)
  }

  /** Every maker that is filled or reduced has a price within the taker's limit; all others stay as they are. */
  lemma TradesWithinLimit(makers: seq<Order>, side: Side, limit: nat, sz: nat)
    ensures var r := Match(makers, side, limit, sz);
            var k := |r.filled|;
            && k <= |makers| && |r.makers| == |makers| - k
            && (forall i :: 0 <= i < k ==> r.filled[i] == makers[i].oid && WithinLimit(side, limit, makers[i].px))
            && (forall i :: k <= i < |makers| && r.makers[i - k] != makers[i] ==>
                  && i == k && r.left == 0 && WithinLimit(side, limit, makers[i].px)
                  && r.makers[0] == makers[i].(sz := r.makers[0].sz) && 0 < r.makers[0].sz < makers[i].sz)
  {
    hide Match, Total;
    MatchShape(makers, side, limit, sz);
    OutcomeWithinLimit(makers, side, limit, sz, Match(makers, side, limit, sz));
  }

  lemma OutcomeWithinLimit(makers: seq<Order>, side: Side, limit: nat, sz: nat, r: MatchResult)
    requires Outcome(makers, side, limit, sz, r)
    ensures var k := |r.filled|;
            && k <= |makers| && |r.makers| == |makers| - k
            && (forall i :: 0 <= i < k ==> r.filled[i] == makers[i].oid && WithinLimit(side, limit, makers[i].px))
            && (forall i :: k <= i < |makers| && r.makers[i - k] != makers[i] ==>
                  && i == k && r.left == 0 && WithinLimit(side, limit, makers[i].px)
                  && r.makers[0] == makers[i].(sz := r.makers[0].sz) && 0 < r.makers[0].sz < makers[i].sz)
  {
    hide Total;
    var k := |r.filled|;
    FilledFirst(makers, r, k);
    ReducedOnlyFirst(makers, k, sz - Total(makers[..k]) - r.left);
  }

  lemma FilledFirst(makers: seq<Order>, r: MatchResult, k: nat)
    requires k <= |makers| && r.filled == Oids(makers[..k])
    ensures forall i :: 0 <= i < k ==> r.filled[i] == makers[i].oid
  {
  }

  lemma ReducedOnlyFirst(makers: seq<Order>, k: nat, part: nat)
    requires k <= |makers| && (part > 0 ==> k < |makers| && part < makers[k].sz)
    ensures var s := Reduced(makers, k, part);
            && |s| == |makers| - k
            && (forall i :: k <= i < |makers| && s[i - k] != makers[i] ==>
                  i == k && part > 0 && s[0] == makers[i].(sz := s[0].sz) && 0 < s[0].sz < makers[i].sz)
  {
  }

  /** With the best maker beyond the limit nothing trades; the exact condition for that when the taker has size. */
  lemma BeyondLimit(makers: seq<Order>, side: Side, limit: nat, sz: nat)
    requires sz > 0
    ensures Match(makers, side, limit, sz) == MatchResult(makers, [], sz)
       <==> makers == [] || !WithinLimit(side, limit, makers[0].px)
    ensures makers == [] || !WithinLimit(side, limit, makers[0].px) ==>
              Match(makers, side, limit, 0) == MatchResult(makers, [], 0)
  {
    MatchShape(makers, side, limit, sz);
  }

  /** A taker with size left has taken every maker within its limit. */
  lemma LeftoverBeyondLimit(makers: seq<Order>, side: Side, limit: nat, sz: nat)
    requires Sorted(makers, Opposite(side)) && Match(makers, side, limit, sz).left > 0
    ensures var r := Match(makers, side, limit, sz);
            forall i :: 0 <= i < |r.makers| ==> !WithinLimit(side, limit, r.makers[i].px)
  {
    LeftoverFacesNothing(makers, side, limit, sz);
    hide Match;
  }
}
