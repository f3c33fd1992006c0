/**
 Replaying blocks on books from which orders of size zero have been left out: exactly when it
 succeeds, and what it leads to.
 */
module ThinReplays {
  import opened Prelude
  import opened FlatBook
  import opened Blocks
  import opened Replays
  import opened Thinning

  /** The orders left out of each coin's book. */
  type Gone = map<string, set<nat>>

  function GoneOf(g: Gone, coin: string): set<nat> {
    if coin in g then g[coin] else {}
  }

  ghost predicate Thinned(x: Books, y: Books, g: Gone, ignoreSpot: bool) {
    forall c :: !Ignored(c, ignoreSpot) ==> BookOf(y, c) == Thin(BookOf(x, c), GoneOf(g, c))
  }

  ghost predicate Loose(x: Books, g: Gone, ignoreSpot: bool) {
    forall c :: !Ignored(c, ignoreSpot) ==> WellFormed(BookOf(x, c)) && Droppable(BookOf(x, c), GoneOf(g, c))
  }

  /** What a New diff leaves to rest, if anything, rests under an oid that does not rest by then. */
  ghost predicate FreshDiff(books: Books, pending: map<nat, Status>, d: Diff) {
    d.change.New? && d.oid in pending ==>
      var o := Opened(pending[d.oid], d.px, d.change.sz);
      RestsFresh(BookOf(books, o.coin), o)
  }

  ghost predicate FreshDiffs(books: Books, pending: map<nat, Status>, diffs: seq<Diff>, ignoreSpot: bool)
    decreases |diffs|
  {
    if diffs == [] then true
    else if Ignored(diffs[0].coin, ignoreSpot) then FreshDiffs(books, pending, diffs[1..], ignoreSpot)
    else
      var st := ApplyDiff(books, pending, diffs[0]);
      FreshDiff(books, pending, diffs[0]) && (st.ok ==> FreshDiffs(st.books, st.pending, diffs[1..], ignoreSpot))
  }

  ghost predicate FreshReplay(c: Core, blocks: seq<Block>, ignoreSpot: bool)
    decreases |blocks|
  {
    blocks != [] ==>
      var b := blocks[0];
      && FreshDiffs(c.books, OrderMap(b.statuses.events), b.diffs.events, ignoreSpot)
      && FreshReplay(ApplyBlock(c, b, ignoreSpot).core, blocks[1..], ignoreSpot)
  }

  /** The left-out orders that still rest after a diff; None when the diff names one of them. */
  function AfterDiff(books: Books, pending: map<nat, Status>, g: Gone, d: Diff): Option<Gone> {
    match d.change
    case New(sz, before) =>
      if d.oid !in pending then None
      else
        var o := Opened(pending[d.oid], d.px, sz);
        var b, z := BookOf(books, o.coin), GoneOf(g, o.coin);
        if NamesLeftOut(b, z, o, before) then None else Some(g[o.coin := GoneAfter(b, z, o)])
    case Malformed => None
    case _ => if d.oid in GoneOf(g, d.coin) then None else Some(g[d.coin := GoneOf(g, d.coin)])
  }

  function AfterDiffs(books: Books, pending: map<nat, Status>, g: Gone, diffs: seq<Diff>,
                      ignoreSpot: bool): Option<Gone>
    decreases |diffs|
  {
    if diffs == [] then Some(g)
    else if Ignored(diffs[0].coin, ignoreSpot) then AfterDiffs(books, pending, g, diffs[1..], ignoreSpot)
    else
      var st, n := ApplyDiff(books, pending, diffs[0]), AfterDiff(books, pending, g, diffs[0]);
      if n.None? then None else AfterDiffs(st.books, st.pending, n.value, diffs[1..], ignoreSpot)
  }

  function AfterBlocks(c: Core, g: Gone, blocks: seq<Block>, ignoreSpot: bool): Option<Gone>
    decreases |blocks|
  {
    if blocks == [] then Some(g)
    else
      var b := blocks[0];
      var n := AfterDiffs(c.books, OrderMap(b.statuses.events), g, b.diffs.events, ignoreSpot);
      if n.None? then None else AfterBlocks(ApplyBlock(c, b, ignoreSpot).core, n.value, blocks[1..], ignoreSpot)
  }

  // ----- one diff

  lemma AtCoin(x: Books, y: Books, g: Gone, coin: string, ignoreSpot: bool)
    requires Thinned(x, y, g, ignoreSpot) && Loose(x, g, ignoreSpot) && !Ignored(coin, ignoreSpot)
    ensures var b, z := BookOf(x, coin), GoneOf(g, coin);
            BookOf(y, coin) == Thin(b, z) && WellFormed(b) && Droppable(b, z)
  {
    hide WellFormed, Droppable, Thin;
  }

  lemma CoinUpdated(x: Books, y: Books, g: Gone, coin: string, b: Book, z: set<nat>, ignoreSpot: bool)
    requires Thinned(x, y, g, ignoreSpot) && Loose(x, g, ignoreSpot) && WellFormed(b) && Droppable(b, z)
    ensures Thinned(x[coin := b], y[coin := Thin(b, z)], g[coin := z], ignoreSpot)
    ensures Loose(x[coin := b], g[coin := z], ignoreSpot)
  {
    hide WellFormed, Droppable, Thin, Ignored;
  }

  lemma NewThin(x: Books, y: Books, pending: map<nat, Status>, g: Gone, d: Diff, ignoreSpot: bool)
    requires Thinned(x, y, g, ignoreSpot) && Loose(x, g, ignoreSpot) && !Ignored(d.coin, ignoreSpot)
    requires PendingAgrees(pending, [d], ignoreSpot) && FreshDiff(x, pending, d) && d.change.New?
    requires ApplyDiff(x, pending, d).ok
    ensures DiffThins(x, y, pending, g, d, ignoreSpot)
  {
    hide AddBefore, WellFormed, Droppable, Thin, Thinned, Loose, Ignored, NamesLeftOut, Matched, GoneAfter;
    assert [d][0] == d && Opens(d, ignoreSpot);
    var o := Opened(pending[d.oid], d.px, d.change.sz);
    var b, z := BookOf(x, d.coin), GoneOf(g, d.coin);
    AtCoin(x, y, g, d.coin, ignoreSpot);
    ThinAdd(b, z, o, d.change.before);
    AddBeforeWellFormedIff(b, o, d.change.before);
    if !NamesLeftOut(b, z, o, d.change.before) {
      CoinUpdated(x, y, g, d.coin, AddBefore(b, o, d.change.before).book, GoneAfter(b, z, o), ignoreSpot);
    }
  }

  ghost predicate DiffThins(x: Books, y: Books, pending: map<nat, Status>, g: Gone, d: Diff, ignoreSpot: bool) {
    var n, s, t := AfterDiff(x, pending, g, d), ApplyDiff(x, pending, d), ApplyDiff(y, pending, d);
    && (t.ok <==> n.Some?)
    && (n.Some? ==>
          t.pending == s.pending && Thinned(s.books, t.books, n.value, ignoreSpot)
            && Loose(s.books, n.value, ignoreSpot))
  }

  lemma TargetThin(x: Books, y: Books, pending: map<nat, Status>, g: Gone, d: Diff, ignoreSpot: bool)
    requires Thinned(x, y, g, ignoreSpot) && Loose(x, g, ignoreSpot) && !Ignored(d.coin, ignoreSpot)
    requires (d.change.Update? || d.change.Remove?) && ApplyDiff(x, pending, d).ok
    ensures DiffThins(x, y, pending, g, d, ignoreSpot)
  {
    hide Cancel, ModifySz, WellFormed, Droppable, Thin, Thinned, Loose, Ignored;
    var b, z := BookOf(x, d.coin), GoneOf(g, d.coin);
    AtCoin(x, y, g, d.coin, ignoreSpot);
    if d.change.Update? {
      EmptyBookRefuses(d.oid, d.change.newSz);
      ThinModifySz(b, z, d.oid, d.change.newSz);
      ModifySzWellFormed(b, d.oid, d.change.newSz);
      if d.oid !in z {
        CoinUpdated(x, y, g, d.coin, ModifySz(b, d.oid, d.change.newSz).book, z, ignoreSpot);
      }
    } else {
      EmptyBookRefuses(d.oid, 0);
      ThinCancel(b, z, d.oid);
      CancelWellFormed(b, d.oid);
      if d.oid !in z {
        CoinUpdated(x, y, g, d.coin, Cancel(b, d.oid).book, z, ignoreSpot);
      }
    }
  }

  // ----- blocks

  lemma {:induction false} DiffsThin(x: Books, y: Books, pending: map<nat, Status>, g: Gone, diffs: seq<Diff>,
                                     ignoreSpot: bool)
    requires Thinned(x, y, g, ignoreSpot) && Loose(x, g, ignoreSpot) && PendingAgrees(pending, diffs, ignoreSpot)
    requires FreshDiffs(x, pending, diffs, ignoreSpot) && ApplyDiffs(x, pending, diffs, ignoreSpot).ok
    ensures var n := AfterDiffs(x, pending, g, diffs, ignoreSpot);
            var r, q := ApplyDiffs(x, pending, diffs, ignoreSpot), ApplyDiffs(y, pending, diffs, ignoreSpot);
            && (q.ok <==> n.Some?)
            && (n.Some? ==> Thinned(r.books, q.books, n.value, ignoreSpot) && Loose(r.books, n.value, ignoreSpot))
    decreases |diffs|
  {
    if diffs != [] {
      hide ApplyDiff, AfterDiff, FreshDiff, Ignored, Thinned, Loose;
      var d := diffs[0];
      StepAgrees(x, pending, diffs, ignoreSpot);
      if Ignored(d.coin, ignoreSpot) {
        DiffsThin(x, y, pending, g, diffs[1..], ignoreSpot);
      } else {
        OneDiffThin(x, y, pending, g, d, ignoreSpot);
        var n, s, t := AfterDiff(x, pending, g, d), ApplyDiff(x, pending, d), ApplyDiff(y, pending, d);
        if n.Some? {
          DiffsThin(s.books, t.books, s.pending, n.value, diffs[1..], ignoreSpot);
        }
      }
    }
  }

  lemma OneDiffThin(x: Books, y: Books, pending: map<nat, Status>, g: Gone, d: Diff, ignoreSpot: bool)
    requires Thinned(x, y, g, ignoreSpot) && Loose(x, g, ignoreSpot) && !Ignored(d.coin, ignoreSpot)
    requires PendingAgrees(pending, [d], ignoreSpot) && FreshDiff(x, pending, d) && ApplyDiff(x, pending, d).ok
    ensures DiffThins(x, y, pending, g, d, ignoreSpot)
  {
    if d.change.New? {
      NewThin(x, y, pending, g, d, ignoreSpot);
    } else if !d.change.Malformed? {
      TargetThin(x, y, pending, g, d, ignoreSpot);
    }
  }

  /** Both sides at one height and time, one thinned. */
  ghost predicate ThinnedCore(x: Core, y: Core, g: Gone, ignoreSpot: bool) {
    x.height == y.height && x.time == y.time && Thinned(x.books, y.books, g, ignoreSpot)
      && Loose(x.books, g, ignoreSpot)
  }

  /** Replaying on the thinned books succeeds exactly when no block names a left-out order. */
  lemma {:induction false} ReplayThin(x: Core, y: Core, g: Gone, blocks: seq<Block>, ignoreSpot: bool)
    requires ThinnedCore(x, y, g, ignoreSpot) && AllAgree(blocks, ignoreSpot)
    requires FreshReplay(x, blocks, ignoreSpot) && Replay(x, blocks, ignoreSpot).Some?
    ensures var n, q := AfterBlocks(x, g, blocks, ignoreSpot), Replay(y, blocks, ignoreSpot);
            && (q.Some? <==> n.Some?)
            && (n.Some? ==> ThinnedCore(Replay(x, blocks, ignoreSpot).value, q.value, n.value, ignoreSpot))
    decreases |blocks|
  {
    if blocks != [] {
      var b := blocks[0];
      hide ApplyDiffs, AfterDiffs, FreshDiffs, OrderMap, Thinned, Loose;
      assert CoinsAgree(b.statuses.events, b.diffs.events, ignoreSpot);
      hide CoinsAgree;
      OrderMapAgrees(b.statuses.events, b.diffs.events, ignoreSpot);
      DiffsThin(x.books, y.books, OrderMap(b.statuses.events), g, b.diffs.events, ignoreSpot);
      var n := AfterDiffs(x.books, OrderMap(b.statuses.events), g, b.diffs.events, ignoreSpot);
      if n.Some? {
        ReplayThin(ApplyBlock(x, b, ignoreSpot).core, ApplyBlock(y, b, ignoreSpot).core, n.value, blocks[1..],
                   ignoreSpot);
      }
    }
  }

  // ----- nothing left out

  lemma NothingGone(b: Book, z: set<nat>)
    requires Droppable(b, z)
    ensures Thin(b, z) == b <==> z == {}
  {
    if z == {} {
      KeepAll(b.bids, z);
      KeepAll(b.asks, z);
    } else {
      var k :| k in z;
      assert k in b.index && k !in Thin(b, z).index;
    }
  }

  ghost predicate NoneGone(g: Gone, ignoreSpot: bool) {
    forall c :: !Ignored(c, ignoreSpot) ==> GoneOf(g, c) == {}
  }

  lemma SameIffNoneGone(x: Books, y: Books, g: Gone, ignoreSpot: bool)
    requires Thinned(x, y, g, ignoreSpot) && Loose(x, g, ignoreSpot)
    ensures SameBooks(y, x, ignoreSpot) <==> NoneGone(g, ignoreSpot)
  {
    hide WellFormed, Droppable, Thin, Ignored;
    forall c | !Ignored(c, ignoreSpot) ensures BookOf(y, c) == BookOf(x, c) <==> GoneOf(g, c) == {} {
      NothingGone(BookOf(x, c), GoneOf(g, c));
    }
  }
}
