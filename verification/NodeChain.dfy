/**
 The node the listener follows: a core and the chain of blocks after it. Batches, blocks and
 states are true when they are the node's of their height; the node's next block always applies
 to a true state and leads to the next true state.
 */
module NodeChain {
  import opened Blocks
  import opened Replays
  import opened BookState
  import opened Listeners
  import opened Audit
  import opened Protocol

  datatype Node = Node(start: Core, chain: seq<Block>)

  /** Exact books with positive sizes at the start, and a chain that keeps the node's promises. */
  ghost predicate NodeOk(n: Node, ignoreSpot: bool) {
    && Good(n.start.books, ignoreSpot)
    && LegalReplay(n.start, n.chain, ignoreSpot)
    && Replay(n.start, n.chain, ignoreSpot).Some?
    && forall i :: 0 <= i < |n.chain| ==> Paired(n.chain[i])
  }

  predicate Covers(n: Node, h: nat) {
    n.start.height <= h <= n.start.height + |n.chain|
  }

  /** The node's books at a height it covers. */
  ghost function At(n: Node, h: nat, ignoreSpot: bool): Core {
    if !Covers(n, h) then n.start
    else
      var r := Replay(n.start, n.chain[..h - n.start.height], ignoreSpot);
      if r.Some? then r.value else n.start
  }

  /** The node's batch of that height; what is older than the start is not constrained. */
  predicate TrueStatuses(n: Node, b: Batch<Status>) {
    && b.height <= n.start.height + |n.chain|
    && (b.height > n.start.height ==> b == n.chain[b.height - n.start.height - 1].statuses)
  }

  predicate TrueDiffs(n: Node, b: Batch<Diff>) {
    && b.height <= n.start.height + |n.chain|
    && (b.height > n.start.height ==> b == n.chain[b.height - n.start.height - 1].diffs)
  }

  predicate TrueBlock(n: Node, b: Block) {
    Paired(b) && TrueStatuses(n, b.statuses) && TrueDiffs(n, b.diffs)
  }

  /** The node's time at that height, or 0 at one of the given heights, at which a book was loaded. */
  ghost predicate TrueTime(n: Node, loads: set<nat>, time: nat, h: nat, ignoreSpot: bool) {
    time == At(n, h, ignoreSpot).time || (time == 0 && h in loads)
  }

  ghost predicate TrueCore(n: Node, loads: set<nat>, c: Core, ignoreSpot: bool) {
    && Covers(n, c.height)
    && SameBooks(c.books, At(n, c.height, ignoreSpot).books, ignoreSpot)
    && TrueTime(n, loads, c.time, c.height, ignoreSpot)
  }

  ghost predicate TrueState(n: Node, loads: set<nat>, s: State, ignoreSpot: bool) {
    TrueCore(n, loads, s.core, ignoreSpot) && CacheAgrees(s)
  }

  lemma TrueMore(n: Node, loads: set<nat>, more: set<nat>, s: State, ignoreSpot: bool)
    requires TrueState(n, loads, s, ignoreSpot) && loads <= more
    ensures TrueState(n, more, s, ignoreSpot)
  {
    hide At, SameBooks, CacheAgrees;
  }

  ghost predicate TrueBlocks(n: Node, bs: seq<Block>) {
    forall i :: 0 <= i < |bs| ==> TrueBlock(n, bs[i])
  }

  lemma PrefixReplays(n: Node, k: nat, ignoreSpot: bool)
    requires NodeOk(n, ignoreSpot) && k <= |n.chain|
    ensures Replay(n.start, n.chain[..k], ignoreSpot).Some?
    ensures LegalReplay(n.start, n.chain[..k], ignoreSpot)
    ensures At(n, n.start.height + k, ignoreSpot) == Replay(n.start, n.chain[..k], ignoreSpot).value
    ensures At(n, n.start.height + k, ignoreSpot).height == n.start.height + k
    ensures LegalReplay(At(n, n.start.height + k, ignoreSpot), n.chain[k..], ignoreSpot)
    ensures Replay(At(n, n.start.height + k, ignoreSpot), n.chain[k..], ignoreSpot).Some?
  {
    hide Replay, LegalReplay, Good;
    assert n.chain == n.chain[..k] + n.chain[k..];
    ReplayConcat(n.start, n.chain[..k], n.chain[k..], ignoreSpot);
    LegalReplayConcat(n.start, n.chain[..k], n.chain[k..], ignoreSpot);
    ReplayHeights(n.start, n.chain[..k], ignoreSpot);
  }

  lemma NodeGood(n: Node, h: nat, ignoreSpot: bool)
    requires NodeOk(n, ignoreSpot) && Covers(n, h)
    ensures Good(At(n, h, ignoreSpot).books, ignoreSpot) && At(n, h, ignoreSpot).height == h
  {
    hide Replay, LegalReplay, Good, At;
    var k := h - n.start.height;
    PrefixReplays(n, k, ignoreSpot);
    ReplayGood(n.start, n.chain[..k], ignoreSpot);
  }

  lemma NodeNext(n: Node, h: nat, ignoreSpot: bool)
    requires NodeOk(n, ignoreSpot) && Covers(n, h) && h < n.start.height + |n.chain|
    ensures var b := n.chain[h - n.start.height];
            var r := ApplyBlock(At(n, h, ignoreSpot), b, ignoreSpot);
            && b.statuses.height == h + 1 && LegalBlock(At(n, h, ignoreSpot), b, ignoreSpot)
            && r.ok && r.core == At(n, h + 1, ignoreSpot)
  {
    hide Replay, LegalReplay, Good, ApplyBlock, LegalBlock, At;
    var k := h - n.start.height;
    var b := n.chain[k];
    PrefixReplays(n, k, ignoreSpot);
    PrefixReplays(n, k + 1, ignoreSpot);
    assert n.chain[..k + 1] == n.chain[..k] + [b];
    assert n.chain[k..][0] == b;
    FirstIsLegal(At(n, h, ignoreSpot), n.chain[k..], ignoreSpot);
    ReplayConcat(n.start, n.chain[..k], [b], ignoreSpot);
    ReplayOne(At(n, h, ignoreSpot), b, ignoreSpot);
  }

  lemma FirstIsLegal(c: Core, blocks: seq<Block>, ignoreSpot: bool)
    requires LegalReplay(c, blocks, ignoreSpot) && blocks != []
    ensures LegalBlock(c, blocks[0], ignoreSpot)
  {
    hide ApplyBlock, LegalBlock;
  }

  lemma TrueIsNodes(n: Node, b: Block)
    requires TrueBlock(n, b) && b.statuses.height > n.start.height
    ensures b.statuses.height <= n.start.height + |n.chain| && b == n.chain[b.statuses.height - n.start.height - 1]
  {
  }

  lemma TimeIrrelevant(c: Core, time: nat, b: Block, ignoreSpot: bool)
    requires b.statuses.height == c.height + 1
    ensures var r, q := ApplyBlock(c, b, ignoreSpot), ApplyBlock(c.(time := time), b, ignoreSpot);
            r.ok == q.ok && (r.ok ==> r.core == q.core)
  {
    hide ApplyDiffs;
  }

  /** The node's next block always applies, and leads to the node's next books and time. */
  lemma TrueStep(n: Node, loads: set<nat>, c: Core, b: Block, ignoreSpot: bool)
    requires NodeOk(n, ignoreSpot) && TrueCore(n, loads, c, ignoreSpot) && TrueBlock(n, b)
    requires b.statuses.height == c.height + 1
    ensures var r := ApplyBlock(c, b, ignoreSpot);
            r.ok && TrueCore(n, {}, r.core, ignoreSpot) && TrueCore(n, loads, r.core, ignoreSpot)
    ensures CoinsAgree(b.statuses.events, b.diffs.events, ignoreSpot)
  {
    hide NodeOk, At, ApplyBlock, LegalBlock, SameBooks, CoinsAgree, TrueBlock;
    var m := At(n, c.height, ignoreSpot);
    TrueIsNodes(n, b);
    NodeNext(n, c.height, ignoreSpot);
    NodeGood(n, c.height, ignoreSpot);
    LegalCoins(m, b, ignoreSpot);
    BlockCongruent(c.(time := m.time), m, b, ignoreSpot);
    TimeIrrelevant(c, m.time, b, ignoreSpot);
    AcceptedIsNext(m, b, ignoreSpot);
  }

  lemma LegalCoins(c: Core, b: Block, ignoreSpot: bool)
    requires LegalBlock(c, b, ignoreSpot)
    ensures CoinsAgree(b.statuses.events, b.diffs.events, ignoreSpot)
  {
  }

  lemma UpdatedTrue(n: Node, loads: set<nat>, s: State, b: Block, ignoreSpot: bool)
    requires NodeOk(n, ignoreSpot) && TrueState(n, loads, s, ignoreSpot) && TrueBlock(n, b)
    ensures var r := Updated(s, b, ignoreSpot);
            && (r.ok <==> b.statuses.height <= s.core.height + 1)
            && (r.ok ==> TrueState(n, loads, r.state, ignoreSpot))
  {
    hide NodeOk, TrueCore, CacheAgrees, CoinsAgree;
    if b.statuses.height == s.core.height + 1 {
      TrueStep(n, loads, s.core, b, ignoreSpot);
      ApplyUpdatesAgrees(s, b, ignoreSpot);
    } else {
      OldBlock(s, b, ignoreSpot);
    }
  }

  lemma OldBlock(s: State, b: Block, ignoreSpot: bool)
    requires b.statuses.height != s.core.height + 1
    ensures Updated(s, b, ignoreSpot) == StateReply(s, b.statuses.height <= s.core.height)
  {
  }

  lemma {:induction false} UpdatedAllTrue(n: Node, loads: set<nat>, s: State, bs: seq<Block>, ignoreSpot: bool)
    requires NodeOk(n, ignoreSpot) && TrueState(n, loads, s, ignoreSpot) && TrueBlocks(n, bs)
    ensures var r := UpdatedAll(s, bs, ignoreSpot); r.ok ==> TrueState(n, loads, r.state, ignoreSpot)
    decreases |bs|
  {
    hide NodeOk, TrueState, TrueBlock, Updated;
    if bs != [] {
      UpdatedTrue(n, loads, s, bs[0], ignoreSpot);
      var r := Updated(s, bs[0], ignoreSpot);
      if r.ok {
        UpdatedAllTrue(n, loads, r.state, bs[1..], ignoreSpot);
      }
    }
  }

  lemma {:induction false} CatchUpTrue(n: Node, loads: set<nat>, s: State, height: nat, bs: seq<Block>,
                                       ignoreSpot: bool)
    requires NodeOk(n, ignoreSpot) && TrueState(n, loads, s, ignoreSpot) && TrueBlocks(n, bs)
    ensures var r := CatchUp(s, height, bs, ignoreSpot);
            r.Reached? ==> TrueState(n, loads, r.state, ignoreSpot) && TrueBlocks(n, r.rest)
    decreases |bs|
  {
    hide NodeOk, TrueState, TrueBlock, Updated;
    if s.core.height < height && bs != [] {
      UpdatedTrue(n, loads, s, bs[0], ignoreSpot);
      var r := Updated(s, bs[0], ignoreSpot);
      if r.ok {
        CatchUpTrue(n, loads, r.state, height, bs[1..], ignoreSpot);
      }
    }
  }

  lemma LiveCovered(n: Node, loads: set<nat>, s: State, ignoreSpot: bool)
    requires TrueState(n, loads, s, ignoreSpot)
    ensures Covers(n, s.core.height)
  {
  }

  lemma {:induction false} CatchUpReaches(s: State, height: nat, bs: seq<Block>, ignoreSpot: bool)
    ensures var c := CatchUp(s, height, bs, ignoreSpot); c.Reached? ==> c.state.core.height >= height
    decreases |bs|
  {
    hide Updated;
    if s.core.height < height && bs != [] {
      var r := Updated(s, bs[0], ignoreSpot);
      if r.ok {
        CatchUpReaches(r.state, height, bs[1..], ignoreSpot);
      }
    }
  }

  lemma TimeTrue(n: Node, loads: set<nat>, s: State, ignoreSpot: bool)
    requires TrueState(n, loads, s, ignoreSpot)
    ensures TrueTime(n, loads, s.core.time, s.core.height, ignoreSpot)
  {
  }

  lemma {:induction false} TrueReplay(n: Node, loads: set<nat>, c: Core, bs: seq<Block>, ignoreSpot: bool)
    requires NodeOk(n, ignoreSpot) && TrueCore(n, loads, c, ignoreSpot) && TrueBlocks(n, bs)
    requires forall i :: 0 <= i < |bs| ==> bs[i].statuses.height == c.height + 1 + i
    ensures var r := Replay(c, bs, ignoreSpot);
            r.Some? && TrueCore(n, loads, r.value, ignoreSpot) && r.value.height == c.height + |bs|
    decreases |bs|
  {
    hide NodeOk, TrueCore, TrueBlock;
    if bs != [] {
      TrueStep(n, loads, c, bs[0], ignoreSpot);
      NextHeight(c, bs[0], ignoreSpot);
      hide ApplyBlock;
      assert forall i :: 0 <= i < |bs| - 1 ==> bs[1..][i] == bs[i + 1];
      TrueReplay(n, loads, ApplyBlock(c, bs[0], ignoreSpot).core, bs[1..], ignoreSpot);
    }
  }

  lemma TrueCoresSame(n: Node, loads: set<nat>, x: Core, y: Core, ignoreSpot: bool)
    requires TrueCore(n, loads, x, ignoreSpot) && TrueCore(n, loads, y, ignoreSpot) && x.height == y.height
    ensures SameBooks(x.books, y.books, ignoreSpot)
  {
    hide At, Ignored;
  }
}
