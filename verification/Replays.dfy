/**
 Runs of blocks: replaying them, the fact that a missing book and an empty one are
 interchangeable, and the keeping of exact books.
 */
module Replays {
  import opened Prelude
  import opened FlatBook
  import opened Snapshots
  import opened Blocks

  /** Applies consecutive blocks; None when one does not fit or fails. */
  function Replay(c: Core, blocks: seq<Block>, ignoreSpot: bool): Option<Core>
    decreases |blocks|
  {
    if blocks == [] then Some(c)
    else
      var r := ApplyBlock(c, blocks[0], ignoreSpot);
      if blocks[0].statuses.height != c.height + 1 || !r.ok then None
      else Replay(r.core, blocks[1..], ignoreSpot)
  }

  lemma {:induction false} ReplayConcat(c: Core, s: seq<Block>, t: seq<Block>, ignoreSpot: bool)
    ensures Replay(c, s + t, ignoreSpot) ==
            var m := Replay(c, s, ignoreSpot); if m.None? then None else Replay(m.value, t, ignoreSpot)
    decreases |s|
  {
    if s == [] {
      assert s + t == t;
    } else {
      hide ApplyBlock;
      assert (s + t)[1..] == s[1..] + t;
      ReplayConcat(ApplyBlock(c, s[0], ignoreSpot).core, s[1..], t, ignoreSpot);
    }
  }

  lemma ReplayOne(c: Core, b: Block, ignoreSpot: bool)
    ensures Replay(c, [b], ignoreSpot) ==
            var r := ApplyBlock(c, b, ignoreSpot);
            if b.statuses.height == c.height + 1 && r.ok then Some(r.core) else None
  {
    hide ApplyBlock;
    assert [b][1..] == [];
  }

  /** Replayed heights are consecutive. */
  lemma {:induction false} ReplayHeights(c: Core, s: seq<Block>, ignoreSpot: bool)
    requires Replay(c, s, ignoreSpot).Some?
    ensures Replay(c, s, ignoreSpot).value.height == c.height + |s|
    ensures forall i :: 0 <= i < |s| ==> s[i].statuses.height == c.height + 1 + i
    ensures s != [] ==> Replay(c, s, ignoreSpot).value.time == s[|s| - 1].statuses.time
    ensures s == [] ==> Replay(c, s, ignoreSpot).value == c
    decreases |s|
  {
    if s != [] {
      ReplayHeights(ApplyBlock(c, s[0], ignoreSpot).core, s[1..], ignoreSpot);
      hide ApplyDiffs;
      assert s == [s[0]] + s[1..];
    }
  }

  // ----- a missing book is an empty book

  ghost predicate SameBooks(x: Books, y: Books, ignoreSpot: bool) {
    forall c :: !Ignored(c, ignoreSpot) ==> BookOf(x, c) == BookOf(y, c)
  }

  /** Same height and time, and the same orders for every coin that is not ignored. */
  ghost predicate SameCore(x: Core, y: Core, ignoreSpot: bool) {
    x.height == y.height && x.time == y.time && SameBooks(x.books, y.books, ignoreSpot)
  }

  lemma EmptyBookRefuses(oid: nat, sz: nat)
    ensures ModifySz(EMPTY, oid, sz) == Reply(EMPTY, false) && Cancel(EMPTY, oid) == Reply(EMPTY, false)
  {
  }

  lemma DiffCongruent(x: Books, y: Books, pending: map<nat, Status>, d: Diff, ignoreSpot: bool)
    requires SameBooks(x, y, ignoreSpot) && PendingAgrees(pending, [d], ignoreSpot) && !Ignored(d.coin, ignoreSpot)
    ensures var s, t := ApplyDiff(x, pending, d), ApplyDiff(y, pending, d);
            s.ok == t.ok && s.pending == t.pending && SameBooks(s.books, t.books, ignoreSpot)
  {
    hide AddBefore, ModifySz, Cancel, Ignored, SameBooks;
    assert [d][0] == d;
    SameBookOf(x, y, d.coin, ignoreSpot);
    var b := BookOf(x, d.coin);
    match d.change {
      case New(sz, before) =>
        if d.oid in pending {
          SameUpdate(x, y, d.coin, AddBefore(b, Opened(pending[d.oid], d.px, sz), before).book, ignoreSpot);
        }
      case Update(sz) =>
        EmptyBookRefuses(d.oid, sz);
        SameUpdate(x, y, d.coin, ModifySz(b, d.oid, sz).book, ignoreSpot);
      case Remove =>
        EmptyBookRefuses(d.oid, 0);
        SameUpdate(x, y, d.coin, Cancel(b, d.oid).book, ignoreSpot);
      case Malformed =>
    }
  }

  lemma SameUpdate(x: Books, y: Books, coin: string, b: Book, ignoreSpot: bool)
    requires SameBooks(x, y, ignoreSpot)
    ensures SameBooks(x[coin := b], y[coin := b], ignoreSpot)
    ensures BookOf(y, coin) == b ==> SameBooks(x[coin := b], y, ignoreSpot)
    ensures BookOf(x, coin) == b ==> SameBooks(x, y[coin := b], ignoreSpot)
  {
    hide Ignored;
  }

  lemma {:induction false} DiffsCongruent(x: Books, y: Books, pending: map<nat, Status>, diffs: seq<Diff>,
                                          ignoreSpot: bool)
    requires SameBooks(x, y, ignoreSpot) && PendingAgrees(pending, diffs, ignoreSpot)
    ensures var r, s := ApplyDiffs(x, pending, diffs, ignoreSpot), ApplyDiffs(y, pending, diffs, ignoreSpot);
            r.ok == s.ok && SameBooks(r.books, s.books, ignoreSpot)
    ensures LegalDiffs(x, pending, diffs, ignoreSpot) <==> LegalDiffs(y, pending, diffs, ignoreSpot)
    decreases |diffs|
  {
    if diffs != [] {
      hide ApplyDiff, Ignored, SameBooks;
      StepAgrees(x, pending, diffs, ignoreSpot);
      if Ignored(diffs[0].coin, ignoreSpot) {
        DiffsCongruent(x, y, pending, diffs[1..], ignoreSpot);
      } else {
        assert PendingAgrees(pending, [diffs[0]], ignoreSpot);
        DiffCongruent(x, y, pending, diffs[0], ignoreSpot);
        SameBookOf(x, y, diffs[0].coin, ignoreSpot);
        var st := ApplyDiff(x, pending, diffs[0]);
        DiffsCongruent(st.books, ApplyDiff(y, pending, diffs[0]).books, st.pending, diffs[1..], ignoreSpot);
      }
    }
  }

  lemma SameBookOf(x: Books, y: Books, coin: string, ignoreSpot: bool)
    requires SameBooks(x, y, ignoreSpot) && !Ignored(coin, ignoreSpot)
    ensures BookOf(x, coin) == BookOf(y, coin)
  {
  }

  lemma BlockCongruent(x: Core, y: Core, b: Block, ignoreSpot: bool)
    requires SameCore(x, y, ignoreSpot) && CoinsAgree(b.statuses.events, b.diffs.events, ignoreSpot)
    ensures var r, s := ApplyBlock(x, b, ignoreSpot), ApplyBlock(y, b, ignoreSpot);
            r.ok == s.ok && SameCore(r.core, s.core, ignoreSpot)
    ensures LegalBlock(x, b, ignoreSpot) <==> LegalBlock(y, b, ignoreSpot)
  {
    hide SameBooks, ApplyDiffs, LegalDiffs, OrderMap;
    OrderMapAgrees(b.statuses.events, b.diffs.events, ignoreSpot);
    DiffsCongruent(x.books, y.books, OrderMap(b.statuses.events), b.diffs.events, ignoreSpot);
  }

  ghost predicate AllAgree(blocks: seq<Block>, ignoreSpot: bool) {
    forall i :: 0 <= i < |blocks| ==> CoinsAgree(blocks[i].statuses.events, blocks[i].diffs.events, ignoreSpot)
  }

  /** Replaying from interchangeable states gives interchangeable results. */
  lemma {:induction false} ReplayCongruent(x: Core, y: Core, blocks: seq<Block>, ignoreSpot: bool)
    requires SameCore(x, y, ignoreSpot) && AllAgree(blocks, ignoreSpot)
    ensures var r, s := Replay(x, blocks, ignoreSpot), Replay(y, blocks, ignoreSpot);
            r.Some? == s.Some? && (r.Some? ==> SameCore(r.value, s.value, ignoreSpot))
    ensures LegalReplay(x, blocks, ignoreSpot) <==> LegalReplay(y, blocks, ignoreSpot)
    decreases |blocks|
  {
    if blocks != [] {
      hide ApplyBlock, LegalBlock, SameCore, CoinsAgree;
      BlockCongruent(x, y, blocks[0], ignoreSpot);
      SameHeights(x, y, ignoreSpot);
      ReplayCongruent(ApplyBlock(x, blocks[0], ignoreSpot).core, ApplyBlock(y, blocks[0], ignoreSpot).core, blocks[1..],
                      ignoreSpot);
    }
  }

  lemma SameHeights(x: Core, y: Core, ignoreSpot: bool)
    requires SameCore(x, y, ignoreSpot)
    ensures x.height == y.height && x.time == y.time
  {
  }

  // ----- books stay exact while the node keeps its promises

  /** A New diff's oid does not rest yet in its coin, and an Update leaves a positive size. */
  ghost predicate LegalDiff(books: Books, pending: map<nat, Status>, d: Diff) {
    && (d.change.New? && d.oid in pending ==> d.oid !in BookOf(books, d.coin).index)
    && (d.change.Update? ==> d.change.newSz > 0)
  }

  ghost predicate LegalDiffs(books: Books, pending: map<nat, Status>, diffs: seq<Diff>, ignoreSpot: bool)
    decreases |diffs|
  {
    if diffs == [] then true
    else if Ignored(diffs[0].coin, ignoreSpot) then LegalDiffs(books, pending, diffs[1..], ignoreSpot)
    else
      var st := ApplyDiff(books, pending, diffs[0]);
      && LegalDiff(books, pending, diffs[0])
      && (st.ok ==> LegalDiffs(st.books, st.pending, diffs[1..], ignoreSpot))
  }

  ghost predicate LegalBlock(c: Core, b: Block, ignoreSpot: bool) {
    && CoinsAgree(b.statuses.events, b.diffs.events, ignoreSpot)
    && (b.statuses.height == c.height + 1 ==>
          LegalDiffs(c.books, OrderMap(b.statuses.events), b.diffs.events, ignoreSpot))
  }

  ghost predicate LegalReplay(c: Core, blocks: seq<Block>, ignoreSpot: bool)
    decreases |blocks|
  {
    blocks != [] ==>
      var r := ApplyBlock(c, blocks[0], ignoreSpot);
      && LegalBlock(c, blocks[0], ignoreSpot)
      && (r.ok ==> LegalReplay(r.core, blocks[1..], ignoreSpot))
  }

  /** Every book that is not ignored is exact and holds positive sizes only. */
  ghost predicate Good(books: Books, ignoreSpot: bool) {
    forall c :: c in books && !Ignored(c, ignoreSpot) ==> WellFormed(books[c]) && AllPositive(books[c])
  }

  lemma GoodBookOf(books: Books, coin: string, ignoreSpot: bool)
    requires Good(books, ignoreSpot) && !Ignored(coin, ignoreSpot)
    ensures WellFormed(BookOf(books, coin)) && AllPositive(BookOf(books, coin))
  {
    EmptyWellFormed();
  }

  lemma GoodUpdate(books: Books, coin: string, b: Book, ignoreSpot: bool)
    requires Good(books, ignoreSpot) && WellFormed(b) && AllPositive(b)
    ensures Good(books[coin := b], ignoreSpot)
  {
    hide WellFormed, AllPositive;
  }

  lemma DiffGood(books: Books, pending: map<nat, Status>, d: Diff, ignoreSpot: bool)
    requires Good(books, ignoreSpot) && PendingAgrees(pending, [d], ignoreSpot) && !Ignored(d.coin, ignoreSpot)
    requires LegalDiff(books, pending, d)
    ensures Good(ApplyDiff(books, pending, d).books, ignoreSpot)
  {
    hide Good, WellFormed, AllPositive, AddBefore, ModifySz, Cancel, Ignored;
    assert [d][0] == d;
    GoodBookOf(books, d.coin, ignoreSpot);
    var b := BookOf(books, d.coin);
    match d.change {
      case New(sz, before) =>
        if d.oid in pending {
          var o := Opened(pending[d.oid], d.px, sz);
          AddBeforeWellFormedIff(b, o, before);
          AddBeforePositive(b, o, before);
          GoodUpdate(books, d.coin, AddBefore(b, o, before).book, ignoreSpot);
        }
      case Update(sz) =>
        ModifySzWellFormed(b, d.oid, sz);
        ModifySzPositive(b, d.oid, sz);
        GoodUpdate(books, d.coin, ModifySz(b, d.oid, sz).book, ignoreSpot);
      case Remove =>
        CancelWellFormed(b, d.oid);
        CancelPositive(b, d.oid);
        GoodUpdate(books, d.coin, Cancel(b, d.oid).book, ignoreSpot);
      case Malformed =>
    }
  }

  lemma {:induction false} DiffsGood(books: Books, pending: map<nat, Status>, diffs: seq<Diff>, ignoreSpot: bool)
    requires Good(books, ignoreSpot) && PendingAgrees(pending, diffs, ignoreSpot)
    requires LegalDiffs(books, pending, diffs, ignoreSpot)
    ensures Good(ApplyDiffs(books, pending, diffs, ignoreSpot).books, ignoreSpot)
    decreases |diffs|
  {
    if diffs != [] {
      hide ApplyDiff, Ignored, Good;
      StepAgrees(books, pending, diffs, ignoreSpot);
      if Ignored(diffs[0].coin, ignoreSpot) {
        DiffsGood(books, pending, diffs[1..], ignoreSpot);
      } else {
        assert PendingAgrees(pending, [diffs[0]], ignoreSpot);
        DiffGood(books, pending, diffs[0], ignoreSpot);
        var st := ApplyDiff(books, pending, diffs[0]);
        if st.ok {
          DiffsGood(st.books, st.pending, diffs[1..], ignoreSpot);
        }
      }
    }
  }

  lemma BlockGood(c: Core, b: Block, ignoreSpot: bool)
    requires Good(c.books, ignoreSpot) && LegalBlock(c, b, ignoreSpot)
    ensures Good(ApplyBlock(c, b, ignoreSpot).core.books, ignoreSpot)
  {
    hide Good, ApplyDiffs, LegalDiffs, OrderMap;
    OrderMapAgrees(b.statuses.events, b.diffs.events, ignoreSpot);
    if b.statuses.height == c.height + 1 {
      DiffsGood(c.books, OrderMap(b.statuses.events), b.diffs.events, ignoreSpot);
    }
  }

  lemma {:induction false} ReplayGood(c: Core, blocks: seq<Block>, ignoreSpot: bool)
    requires Good(c.books, ignoreSpot) && LegalReplay(c, blocks, ignoreSpot) && Replay(c, blocks, ignoreSpot).Some?
    ensures Good(Replay(c, blocks, ignoreSpot).value.books, ignoreSpot)
    decreases |blocks|
  {
    if blocks != [] {
      hide Good, ApplyBlock, LegalBlock;
      BlockGood(c, blocks[0], ignoreSpot);
      ReplayGood(ApplyBlock(c, blocks[0], ignoreSpot).core, blocks[1..], ignoreSpot);
    }
  }

  lemma {:induction false} LegalReplayConcat(c: Core, s: seq<Block>, t: seq<Block>, ignoreSpot: bool)
    requires Replay(c, s, ignoreSpot).Some?
    ensures LegalReplay(c, s + t, ignoreSpot) <==>
            LegalReplay(c, s, ignoreSpot) && LegalReplay(Replay(c, s, ignoreSpot).value, t, ignoreSpot)
    decreases |s|
  {
    if s == [] {
      assert s + t == t;
    } else {
      hide ApplyBlock, LegalBlock;
      assert (s + t)[1..] == s[1..] + t;
      LegalReplayConcat(ApplyBlock(c, s[0], ignoreSpot).core, s[1..], t, ignoreSpot);
    }
  }

  lemma {:induction false} LegalReplayAgrees(c: Core, blocks: seq<Block>, ignoreSpot: bool)
    requires LegalReplay(c, blocks, ignoreSpot) && Replay(c, blocks, ignoreSpot).Some?
    ensures AllAgree(blocks, ignoreSpot)
    decreases |blocks|
  {
    if blocks != [] {
      hide ApplyBlock, LegalDiffs, CoinsAgree;
      LegalReplayAgrees(ApplyBlock(c, blocks[0], ignoreSpot).core, blocks[1..], ignoreSpot);
      assert blocks == [blocks[0]] + blocks[1..];
    }
  }
}
