/** What an audit does: replaying on the clone, validating, rebuilding, replaying the rest. */
module Audit {
  import opened Prelude
  import opened FlatBook
  import opened Snapshots
  import opened Blocks
  import opened Replays
  import opened Scopes
  import opened BookState
  import opened Listeners

  /** On a state the remembered blocks lead on from, replaying is the same on states as on their cores. */
  lemma {:induction false} UpdatedAllIsReplay(s: State, blocks: seq<Block>, ignoreSpot: bool)
    requires forall i :: 0 <= i < |blocks| ==> blocks[i].statuses.height == s.core.height + 1 + i
    ensures UpdatedAll(s, blocks, ignoreSpot).ok <==> Replay(s.core, blocks, ignoreSpot).Some?
    ensures UpdatedAll(s, blocks, ignoreSpot).ok ==>
              UpdatedAll(s, blocks, ignoreSpot).state.core == Replay(s.core, blocks, ignoreSpot).value
    decreases |blocks|
  {
    if blocks != [] {
      var r := Updated(s, blocks[0], ignoreSpot);
      NextHeight(s.core, blocks[0], ignoreSpot);
      hide ApplyBlock;
      if r.ok {
        forall i | 0 <= i < |blocks[1..]| ensures blocks[1..][i].statuses.height == r.state.core.height + 1 + i {
          assert blocks[1..][i] == blocks[i + 1];
        }
        UpdatedAllIsReplay(r.state, blocks[1..], ignoreSpot);
      }
    }
  }

  /** A state that has not published its views at its height has not after replaying either. */
  lemma {:induction false} StaysUnsnapped(s: State, blocks: seq<Block>, ignoreSpot: bool)
    requires !s.snapped
    ensures !UpdatedAll(s, blocks, ignoreSpot).state.snapped
    decreases |blocks|
  {
    if blocks != [] {
      hide ApplyBlock;
      var r := Updated(s, blocks[0], ignoreSpot);
      if r.ok {
        StaysUnsnapped(r.state, blocks[1..], ignoreSpot);
      }
    }
  }

  lemma NextHeight(c: Core, b: Block, ignoreSpot: bool)
    requires b.statuses.height == c.height + 1
    ensures var r := ApplyBlock(c, b, ignoreSpot);
            r.core.height == if r.ok then c.height + 1 else c.height
  {
    hide ApplyDiffs;
  }

  lemma {:induction false} UpdatedAllAgrees(s: State, blocks: seq<Block>, ignoreSpot: bool)
    requires CacheAgrees(s) && AllAgree(blocks, ignoreSpot)
    ensures CacheAgrees(UpdatedAll(s, blocks, ignoreSpot).state)
    decreases |blocks|
  {
    if blocks != [] {
      hide CacheAgrees, Updated, CoinsAgree;
      ApplyUpdatesAgrees(s, blocks[0], ignoreSpot);
      var r := Updated(s, blocks[0], ignoreSpot);
      if r.ok {
        UpdatedAllAgrees(r.state, blocks[1..], ignoreSpot);
      }
    }
  }

  /** s' is s after the blocks but the last |rest|, and the rest leads on to c. */
  ghost predicate SplitAt(s: Core, s': Core, blocks: seq<Block>, rest: seq<Block>, ignoreSpot: bool, c: Core) {
    && |rest| <= |blocks| && rest == blocks[|blocks| - |rest|..]
    && Replay(s, blocks[..|blocks| - |rest|], ignoreSpot) == Some(s')
    && Replay(s', rest, ignoreSpot) == Some(c)
  }

  lemma ReplayGoesOn(s: Core, blocks: seq<Block>, ignoreSpot: bool)
    requires blocks != [] && ApplyBlock(s, blocks[0], ignoreSpot).ok && blocks[0].statuses.height == s.height + 1
    ensures Replay(s, blocks, ignoreSpot) == Replay(ApplyBlock(s, blocks[0], ignoreSpot).core, blocks[1..], ignoreSpot)
  {
    hide ApplyBlock;
  }

  lemma SplitStep(s: Core, s': Core, blocks: seq<Block>, rest: seq<Block>, ignoreSpot: bool, c: Core)
    requires blocks != []
    requires var u := ApplyBlock(s, blocks[0], ignoreSpot);
             u.ok && blocks[0].statuses.height == s.height + 1 && SplitAt(u.core, s', blocks[1..], rest, ignoreSpot, c)
    ensures SplitAt(s, s', blocks, rest, ignoreSpot, c)
  {
    hide ApplyBlock, Replay;
    var k := |blocks| - |rest|;
    assert blocks[1..][..k - 1] == blocks[..k][1..];
    assert blocks[1..][k - 1..] == blocks[k..];
    assert blocks[..k][0] == blocks[0];
    ReplayGoesOn(s, blocks[..k], ignoreSpot);
  }

  lemma SplitNone(s: Core, blocks: seq<Block>, ignoreSpot: bool, c: Core)
    requires Replay(s, blocks, ignoreSpot) == Some(c)
    ensures SplitAt(s, s, blocks, blocks, ignoreSpot, c)
  {
    hide ApplyBlock;
    assert blocks[..0] == [];
  }

  lemma ReplayFirst(s: Core, blocks: seq<Block>, ignoreSpot: bool, c: Core)
    requires blocks != [] && Replay(s, blocks, ignoreSpot) == Some(c)
    ensures var u := ApplyBlock(s, blocks[0], ignoreSpot);
            u.ok && blocks[0].statuses.height == s.height + 1 && Replay(u.core, blocks[1..], ignoreSpot) == Some(c)
  {
    hide ApplyBlock;
  }

  /**
   If the remembered blocks lead from the clone to core c, catching up never breaks: it falls
   short exactly when the node snapshot is beyond c, and otherwise splits the blocks at the
   snapshot's height (or does nothing when the clone is already past it).
   */
  lemma {:induction false} CatchUpSplits(s: State, height: nat, blocks: seq<Block>, ignoreSpot: bool, c: Core)
    requires Replay(s.core, blocks, ignoreSpot) == Some(c)
    ensures var r := CatchUp(s, height, blocks, ignoreSpot);
            && !r.Broken?
            && (r.Short? <==> c.height < height)
            && (r.Reached? ==>
                  && SplitAt(s.core, r.state.core, blocks, r.rest, ignoreSpot, c)
                  && r.state.core.height == (if s.core.height > height then s.core.height else height))
    decreases |blocks|
  {
    hide ApplyBlock, Replay, SplitAt;
    ReplayHeights(s.core, blocks, ignoreSpot);
    if s.core.height >= height {
      SplitNone(s.core, blocks, ignoreSpot, c);
    } else if blocks != [] {
      ReplayFirst(s.core, blocks, ignoreSpot, c);
      NextHeight(s.core, blocks[0], ignoreSpot);
      var u := Updated(s, blocks[0], ignoreSpot);
      CatchUpSplits(u.state, height, blocks[1..], ignoreSpot, c);
      var r := CatchUp(s, height, blocks, ignoreSpot);
      if r.Reached? {
        SplitStep(s.core, r.state.core, blocks, r.rest, ignoreSpot, c);
      }
    }
  }

  // ----- rebuilding from a consistent snapshot

  /** Exact books, as far as not ignored. */
  ghost predicate Exact(books: Books, ignoreSpot: bool) {
    forall c :: c in books && !Ignored(c, ignoreSpot) ==> WellFormed(books[c])
  }

  lemma EmptyBook(b: Book)
    requires WellFormed(b) && EmptySnapshot(ToSnapshot(b))
    ensures b == EMPTY
  {
    EmptyWellFormed();
    IndexDetermined(b, EMPTY);
  }

  lemma RebuildEmpty()
    ensures FromSnapshot(Snapshot([], []), true) == EMPTY
  {
  }

  /** Rebuilding one coin from a consistent snapshot gives back its book exactly when all its sizes are positive. */
  lemma RebuildCoin(books: Books, snaps: map<string, Snapshot>, ignoreSpot: bool, c: string)
    requires Exact(books, ignoreSpot) && Consistent(ToSnapshots(books), snaps, ignoreSpot) && !Ignored(c, ignoreSpot)
    ensures BookOf(FromSnapshots(snaps, true), c) == BookOf(books, c) <==> AllPositive(BookOf(books, c))
  {
    hide WellFormed, FromSnapshot, Ignored;
    RebuildEmpty();
    if c in books {
      if c in snaps {
        assert snaps[c] == ToSnapshot(books[c]);
        RoundTripIff(books[c]);
      } else {
        EmptyBook(books[c]);
      }
    } else if c in snaps {
      assert snaps[c] == Snapshot([], []);
    }
  }

  lemma RebuildBooksIff(books: Books, snaps: map<string, Snapshot>, ignoreSpot: bool)
    requires Exact(books, ignoreSpot) && Consistent(ToSnapshots(books), snaps, ignoreSpot)
    ensures SameBooks(FromSnapshots(snaps, true), books, ignoreSpot) <==> Good(books, ignoreSpot)
  {
    hide WellFormed, FromSnapshot, Consistent, FromSnapshots, AllPositive, Ignored;
    forall c | !Ignored(c, ignoreSpot)
      ensures BookOf(FromSnapshots(snaps, true), c) == BookOf(books, c) <==> AllPositive(BookOf(books, c))
    {
      RebuildCoin(books, snaps, ignoreSpot, c);
    }
    EmptyPositive();
  }

  lemma EmptyPositive()
    ensures AllPositive(EMPTY)
  {
  }

  /**
   The rebuilt state of a benign audit: interchangeable with the baseline at the snapshot's
   height and, once the rest is replayed, with the live state.
   */
  lemma BenignRebuild(s: State, snaps: map<string, Snapshot>, rest: seq<Block>, ignoreSpot: bool, c: Core)
    requires Good(s.core.books, ignoreSpot) && Consistent(ToSnapshots(s.core.books), snaps, ignoreSpot)
    requires Replay(s.core, rest, ignoreSpot) == Some(c) && AllAgree(rest, ignoreSpot)
    ensures var r := UpdatedAll(FromNode(snaps, s.core.height, s.core.time), rest, ignoreSpot);
            r.ok && SameCore(r.state.core, c, ignoreSpot)
  {
    hide FromSnapshots, Consistent, Good, SameBooks, Replay, UpdatedAll, LegalReplay, AllAgree;
    GoodIsExact(s.core.books, ignoreSpot);
    RebuildBooksIff(s.core.books, snaps, ignoreSpot);
    var n := FromNode(snaps, s.core.height, s.core.time);
    assert SameCore(n.core, s.core, ignoreSpot);
    ReplayCongruent(n.core, s.core, rest, ignoreSpot);
    ReplayHeights(s.core, rest, ignoreSpot);
    UpdatedAllIsReplay(n, rest, ignoreSpot);
  }

  lemma GoodIsExact(books: Books, ignoreSpot: bool)
    requires Good(books, ignoreSpot)
    ensures Exact(books, ignoreSpot)
  {
    hide WellFormed;
  }
}
