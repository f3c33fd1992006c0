/**
 What a snapshot installs. A load, and an audit that found a divergence, both end up with the
 node's own books: the books of its snapshot, trigger orders left out, with the later blocks
 applied. Auditing the repaired books against the same snapshot finds nothing, and after any audit
 that reached its height every coin of the snapshot has a book.
 */
module Repairs {
  import opened Prelude
  import opened FlatBook
  import opened Snapshots
  import opened Blocks
  import opened Replays
  import opened Scopes
  import opened TriggerRemoval
  import opened Queues
  import opened BookState
  import opened Listeners
  import opened Audit
  import opened Protocol
  import opened AuditEffects

  // ----- the node's snapshot

  /** The snapshot lists this book, with the same untriggered orders after both sides, if any. */
  ghost predicate ShowsBook(b: Book, s: Snapshot) {
    exists ts, us :: FreshTriggers(b, ts, us) && s == Snapshot(b.bids + ts, b.asks + us)
  }

  ghost predicate ShowsNode(books: Books, snaps: map<string, Snapshot>, ignoreSpot: bool) {
    && (forall c :: !Ignored(c, ignoreSpot) ==> (c in books <==> c in snaps))
    && (forall c :: c in snaps && !Ignored(c, ignoreSpot) ==> ShowsBook(books[c], snaps[c]))
  }

  lemma OwnSnapshotShows(books: Books, ignoreSpot: bool)
    ensures ShowsNode(books, ToSnapshots(books), ignoreSpot)
  {
    hide Ignored;
    forall c | c in books ensures ShowsBook(books[c], ToSnapshots(books)[c]) {
      var b := books[c];
      assert FreshTriggers(b, [], []) && b.bids + [] == b.bids && b.asks + [] == b.asks;
    }
  }

  lemma ShownRebuilds(b: Book, s: Snapshot)
    requires WellFormed(b) && AllPositive(b) && ShowsBook(b, s)
    ensures FromSnapshot(s, true) == b
  {
    hide WellFormed, FreshTriggers, AllPositive, FromSnapshot;
    var ts, us :| FreshTriggers(b, ts, us) && s == Snapshot(b.bids + ts, b.asks + us);
    RebuildIgnoresTriggers(b, ts, us);
  }

  /** Loading the node's snapshot gives the node's books. */
  lemma NodeRebuilds(books: Books, snaps: map<string, Snapshot>, ignoreSpot: bool)
    requires Good(books, ignoreSpot) && ShowsNode(books, snaps, ignoreSpot)
    ensures SameBooks(FromSnapshots(snaps, true), books, ignoreSpot)
  {
    hide WellFormed, AllPositive, FromSnapshot, ShowsBook, Ignored;
    forall c | !Ignored(c, ignoreSpot) ensures BookOf(FromSnapshots(snaps, true), c) == BookOf(books, c) {
      if c in snaps {
        ShownRebuilds(books[c], snaps[c]);
      }
    }
  }

  // ----- a divergence

  /**
   A diverged audit succeeds exactly when the remembered blocks after the snapshot's height replay
   on the node's books. It then goes on with what they lead to, and says so by a gap; otherwise the
   live books stay.
   */
  lemma DivergedInstallsNode(cfg: Config, s: Sys, books: Books, snaps: map<string, Snapshot>, height: nat)
    requires AuditOfLive(cfg, s) && AuditVerdict(cfg, s, snaps, height) == Some(Diverged)
    requires Good(books, cfg.ignoreSpot) && ShowsNode(books, snaps, cfg.ignoreSpot)
    requires AllAgree(Baseline(cfg, s, height).rest, cfg.ignoreSpot)
    ensures var r := Finish(cfg, s.l, s.task.epoch, s.task.clone, snaps, height);
            var q := Replay(Core(books, height, 0), Baseline(cfg, s, height).rest, cfg.ignoreSpot);
            && (r.ok <==> q.Some?) && r.l.live.Some?
            && (r.ok ==> SameCore(r.l.live.value.core, q.value, cfg.ignoreSpot) && r.l.out == s.l.out + [Gap])
            && (!r.ok ==> r.l.live == s.l.live && r.l.out == s.l.out)
  {
    hide Replay, ApplyBlock, CatchUp, UpdatedAll, SplitAt, FromSnapshots, Validate, Good, ShowsNode, SameBooks,
         AllAgree, Accounted;
    var live, clone, blocks := s.l.live.value.core, s.task.clone.value, s.l.cache.value;
    var c := CatchUp(clone, height, blocks, cfg.ignoreSpot);
    CatchUpSplits(clone, height, blocks, cfg.ignoreSpot, live);
    RestLeadsOn(clone.core, c.state.core, blocks, c.rest, cfg.ignoreSpot, live);
    ReplayHeights(c.state.core, c.rest, cfg.ignoreSpot);
    NodeRebuilds(books, snaps, cfg.ignoreSpot);
    var n := FromNode(snaps, height, 0);
    ReplayCongruent(n.core, Core(books, height, 0), c.rest, cfg.ignoreSpot);
    UpdatedAllIsReplay(n, c.rest, cfg.ignoreSpot);
  }

  /** With a snapshot at the live height, auditing again against it finds every coin equal. */
  lemma RepairHolds(cfg: Config, s: Sys, books: Books, height: nat)
    requires AuditOfLive(cfg, s) && AuditVerdict(cfg, s, ToSnapshots(books), height) == Some(Diverged)
    requires Good(books, cfg.ignoreSpot) && height == s.l.live.value.core.height
    ensures var r := Finish(cfg, s.l, s.task.epoch, s.task.clone, ToSnapshots(books), height);
            && r.ok && r.l.live.Some?
            && SameBooks(r.l.live.value.core.books, books, cfg.ignoreSpot)
            && Validate(ToSnapshots(r.l.live.value.core.books), ToSnapshots(books), cfg.ignoreSpot) == Equal
  {
    hide ApplyBlock, CatchUp, SplitAt, FromSnapshots, Validate, Good, ShowsNode, SameBooks, Accounted, ToSnapshots;
    var live, clone, blocks := s.l.live.value.core, s.task.clone.value, s.l.cache.value;
    var c, snaps := CatchUp(clone, height, blocks, cfg.ignoreSpot), ToSnapshots(books);
    CatchUpSplits(clone, height, blocks, cfg.ignoreSpot, live);
    RestLeadsOn(clone.core, c.state.core, blocks, c.rest, cfg.ignoreSpot, live);
    ReplayHeights(c.state.core, c.rest, cfg.ignoreSpot);
    OwnSnapshotShows(books, cfg.ignoreSpot);
    DivergedInstallsNode(cfg, s, books, snaps, height);
    DivergedKeys(cfg, s, snaps, height);
    var r := Finish(cfg, s.l, s.task.epoch, s.task.clone, snaps, height);
    SameBooksValidate(r.l.live.value.core.books, books, cfg.ignoreSpot);
  }

  lemma DivergedKeys(cfg: Config, s: Sys, snaps: map<string, Snapshot>, height: nat)
    requires AuditOfLive(cfg, s) && AuditVerdict(cfg, s, snaps, height) == Some(Diverged)
    requires Baseline(cfg, s, height).rest == []
    ensures var r := Finish(cfg, s.l, s.task.epoch, s.task.clone, snaps, height);
            r.l.live.Some? && r.l.live.value.core.books.Keys == snaps.Keys
  {
    hide Replay, ApplyBlock, CatchUp, Validate, FromSnapshot, Accounted;
    NothingToReplay(FromNode(snaps, height, 0), cfg.ignoreSpot);
    hide UpdatedAll;
  }

  lemma SameBooksValidate(x: Books, books: Books, ignoreSpot: bool)
    requires SameBooks(x, books, ignoreSpot) && x.Keys == ToSnapshots(books).Keys
    ensures Validate(ToSnapshots(x), ToSnapshots(books), ignoreSpot) == Equal
  {
    hide Ignored;
    forall c | c in x && !Ignored(c, ignoreSpot) ensures ToSnapshots(x)[c] == ToSnapshots(books)[c] {
      assert BookOf(x, c) == BookOf(books, c);
    }
  }

  // ----- every coin of the snapshot

  lemma {:induction false} DiffsKeepKeys(books: Books, pending: map<nat, Status>, diffs: seq<Diff>, ignoreSpot: bool)
    ensures books.Keys <= ApplyDiffs(books, pending, diffs, ignoreSpot).books.Keys
    decreases |diffs|
  {
    if diffs != [] {
      OneDiffKeepsKeys(books, pending, diffs[0]);
      hide ApplyDiff;
      if Ignored(diffs[0].coin, ignoreSpot) {
        DiffsKeepKeys(books, pending, diffs[1..], ignoreSpot);
      } else {
        var st := ApplyDiff(books, pending, diffs[0]);
        DiffsKeepKeys(st.books, st.pending, diffs[1..], ignoreSpot);
      }
    }
  }

  lemma OneDiffKeepsKeys(books: Books, pending: map<nat, Status>, d: Diff)
    ensures books.Keys <= ApplyDiff(books, pending, d).books.Keys
  {
    hide AddBefore, ModifySz, Cancel;
  }

  lemma {:induction false} ReplayKeepsKeys(c: Core, blocks: seq<Block>, ignoreSpot: bool)
    requires Replay(c, blocks, ignoreSpot).Some?
    ensures c.books.Keys <= Replay(c, blocks, ignoreSpot).value.books.Keys
    decreases |blocks|
  {
    if blocks != [] {
      DiffsKeepKeys(c.books, OrderMap(blocks[0].statuses.events), blocks[0].diffs.events, ignoreSpot);
      hide ApplyDiffs, OrderMap;
      ReplayKeepsKeys(ApplyBlock(c, blocks[0], ignoreSpot).core, blocks[1..], ignoreSpot);
    }
  }

  /** After an audit that reached the snapshot's height and succeeded, every coin of the snapshot has a book. */
  lemma AuditCoversCoins(cfg: Config, s: Sys, snaps: map<string, Snapshot>, height: nat)
    requires AuditOfLive(cfg, s) && AuditVerdict(cfg, s, snaps, height).Some?
    requires Finish(cfg, s.l, s.task.epoch, s.task.clone, snaps, height).ok
    ensures var r := Finish(cfg, s.l, s.task.epoch, s.task.clone, snaps, height);
            r.l.live.Some? && forall c :: c in snaps && !Ignored(c, cfg.ignoreSpot) ==> c in r.l.live.value.core.books
  {
    hide Replay, ApplyBlock, CatchUp, UpdatedAll, SplitAt, FromSnapshot, Ignored, Accounted, Consistent, Refreshed;
    var live, clone, blocks := s.l.live.value.core, s.task.clone.value, s.l.cache.value;
    var c := CatchUp(clone, height, blocks, cfg.ignoreSpot);
    CatchUpSplits(clone, height, blocks, cfg.ignoreSpot, live);
    RestLeadsOn(clone.core, c.state.core, blocks, c.rest, cfg.ignoreSpot, live);
    ReplayHeights(c.state.core, c.rest, cfg.ignoreSpot);
    ReplayKeepsKeys(c.state.core, c.rest, cfg.ignoreSpot);
    var v := AuditVerdict(cfg, s, snaps, height).value;
    if v != Equal {
      var n := FromNode(snaps, height, if v == EmptyBooksAdded then c.state.core.time else 0);
      UpdatedAllIsReplay(n, c.rest, cfg.ignoreSpot);
      SnappedCore(UpdatedAll(n, c.rest, cfg.ignoreSpot).state);
      ReplayKeepsKeys(n.core, c.rest, cfg.ignoreSpot);
    }
  }

  // ----- loading

  /** The pairs of equal height in both queues, as blocks. */
  function Common(s: seq<Batch<Status>>, t: seq<Batch<Diff>>): seq<Block>
    decreases |s| + |t|
  {
    if s == [] || t == [] then []
    else if t[0].height < s[0].height then Common(s, t[1..])
    else if t[0].height > s[0].height then Common(s[1..], t)
    else [Block(s[0], t[0])] + Common(s[1..], t[1..])
  }

  ghost predicate AllCommon(s: seq<Batch<Status>>, t: seq<Batch<Diff>>, blocks: seq<Block>) {
    && (forall k :: 0 <= k < |blocks| ==> blocks[k].statuses in s && blocks[k].diffs in t && Paired(blocks[k]))
    && (forall k, l :: 0 <= k < l < |blocks| ==> blocks[k].statuses.height < blocks[l].statuses.height)
    && (forall i, j :: 0 <= i < |s| && 0 <= j < |t| && s[i].height == t[j].height ==> Block(s[i], t[j]) in blocks)
  }

  /** They are all of them, once each and in order of height. */
  lemma {:induction false} CommonIsAll(s: seq<Batch<Status>>, t: seq<Batch<Diff>>)
    requires Increasing(s) && Increasing(t)
    ensures AllCommon(s, t, Common(s, t))
    decreases |s| + |t|
  {
    if s != [] && t != [] {
      hide Common, AllCommon;
      CommonUnfolds(s, t);
      if t[0].height < s[0].height {
        CommonIsAll(s, t[1..]);
        SkipsRight(s, t, Common(s, t[1..]));
      } else if t[0].height > s[0].height {
        CommonIsAll(s[1..], t);
        SkipsLeft(s, t, Common(s[1..], t));
      } else {
        CommonIsAll(s[1..], t[1..]);
        TakesBoth(s, t, Common(s[1..], t[1..]));
      }
    }
  }

  lemma CommonUnfolds(s: seq<Batch<Status>>, t: seq<Batch<Diff>>)
    requires s != [] && t != []
    ensures Common(s, t) ==
            if t[0].height < s[0].height then Common(s, t[1..])
            else if t[0].height > s[0].height then Common(s[1..], t)
            else [Block(s[0], t[0])] + Common(s[1..], t[1..])
  {
  }

  lemma SkipsRight(s: seq<Batch<Status>>, t: seq<Batch<Diff>>, blocks: seq<Block>)
    requires s != [] && t != [] && Increasing(s) && t[0].height < s[0].height && AllCommon(s, t[1..], blocks)
    ensures AllCommon(s, t, blocks)
  {
    forall i, j | 0 <= i < |s| && 0 <= j < |t| && s[i].height == t[j].height ensures Block(s[i], t[j]) in blocks {
      assert t[1..][j - 1] == t[j];
    }
  }

  lemma SkipsLeft(s: seq<Batch<Status>>, t: seq<Batch<Diff>>, blocks: seq<Block>)
    requires s != [] && t != [] && Increasing(t) && s[0].height < t[0].height && AllCommon(s[1..], t, blocks)
    ensures AllCommon(s, t, blocks)
  {
    forall i, j | 0 <= i < |s| && 0 <= j < |t| && s[i].height == t[j].height ensures Block(s[i], t[j]) in blocks {
      assert s[1..][i - 1] == s[i];
    }
  }

  lemma TakesBoth(s: seq<Batch<Status>>, t: seq<Batch<Diff>>, blocks: seq<Block>)
    requires s != [] && t != [] && Increasing(s) && Increasing(t) && s[0].height == t[0].height
    requires AllCommon(s[1..], t[1..], blocks)
    ensures AllCommon(s, t, [Block(s[0], t[0])] + blocks)
  {
    hide Increasing;
    var all := [Block(s[0], t[0])] + blocks;
    TailAbove(s);
    TailAbove(t);
    FirstIn(s);
    FirstIn(t);
    forall k | 0 <= k < |all| ensures all[k].statuses in s && all[k].diffs in t && Paired(all[k]) {
      if k > 0 {
        assert all[k] == blocks[k - 1];
      }
    }
    forall k | 0 <= k < |blocks| ensures s[0].height < blocks[k].statuses.height {
      assert blocks[k].statuses in s[1..];
    }
    FirstBelow(Block(s[0], t[0]), blocks);
    CommonListed(s, t, blocks);
  }

  lemma FirstBelow(b: Block, blocks: seq<Block>)
    requires forall k, l :: 0 <= k < l < |blocks| ==> blocks[k].statuses.height < blocks[l].statuses.height
    requires forall k :: 0 <= k < |blocks| ==> b.statuses.height < blocks[k].statuses.height
    ensures var all := [b] + blocks;
            forall k, l :: 0 <= k < l < |all| ==> all[k].statuses.height < all[l].statuses.height
  {
  }

  lemma TailAbove<E>(s: seq<Batch<E>>)
    requires s != [] && Increasing(s)
    ensures forall x :: x in s[1..] ==> x in s && s[0].height < x.height
    ensures forall i :: 0 < i < |s| ==> s[0].height < s[i].height
  {
  }

  lemma CommonListed(s: seq<Batch<Status>>, t: seq<Batch<Diff>>, blocks: seq<Block>)
    requires s != [] && t != [] && s[0].height == t[0].height
    requires forall i :: 0 < i < |s| ==> s[0].height < s[i].height
    requires forall i :: 0 < i < |t| ==> t[0].height < t[i].height
    requires forall i, j :: 0 <= i < |s[1..]| && 0 <= j < |t[1..]| && s[1..][i].height == t[1..][j].height ==>
               Block(s[1..][i], t[1..][j]) in blocks
    ensures forall i, j :: 0 <= i < |s| && 0 <= j < |t| && s[i].height == t[j].height ==>
              Block(s[i], t[j]) in [Block(s[0], t[0])] + blocks
  {
    forall i, j | 0 <= i < |s| && 0 <= j < |t| && s[i].height == t[j].height
      ensures Block(s[i], t[j]) in [Block(s[0], t[0])] + blocks
    {
      if i > 0 && j > 0 {
        assert s[1..][i - 1] == s[i] && t[1..][j - 1] == t[j];
      }
    }
  }

  lemma {:induction false} PopsCommon(a: Queue<Status>, b: Queue<Diff>)
    requires Accounted(a) && Accounted(b)
    ensures var r := PopPair(a, b);
            Common(a.items, b.items) ==
              if r.pair.None? then []
              else [Block(r.pair.value.0, r.pair.value.1)] + Common(r.left.items, r.right.items)
    decreases |a.items| + |b.items|
  {
    hide Accounted;
    if a.items != [] && b.items != [] {
      if b.items[0].height < a.items[0].height {
        PopsCommon(a, DropFront(b));
      } else if b.items[0].height > a.items[0].height {
        PopsCommon(DropFront(a), b);
      }
    }
  }

  /** A load installs a book exactly when every queued pair applies, and then the one they lead to. */
  lemma {:induction false} LoadApplies(cfg: Config, l: Listener, s: State)
    requires QueuesAccounted(l) && l.live.None?
    ensures var u := UpdatedAll(s, Common(l.statuses.items, l.diffs.items), cfg.ignoreSpot);
            InitLoop(cfg, l, s).live == if u.ok then Some(u.state) else None
    decreases |l.statuses.items| + |l.diffs.items|
  {
    hide PopPair, Accounted, Updated, Common, UpdatedAll;
    PopsCommon(l.statuses, l.diffs);
    PopShrinks(l.statuses, l.diffs);
    InitLoopStep(cfg, l, s);
    var p := PopPair(l.statuses, l.diffs);
    var blocks := Common(l.statuses.items, l.diffs.items);
    if p.pair.None? {
      NothingToReplay(s, cfg.ignoreSpot);
    } else {
      UpdatedAllUnfolds(s, blocks, cfg.ignoreSpot);
      assert blocks[1..] == Common(p.left.items, p.right.items);
      var u := Updated(s, blocks[0], cfg.ignoreSpot);
      if u.ok {
        LoadApplies(cfg, l.(statuses := p.left, diffs := p.right), u.state);
      }
    }
  }

  lemma UpdatedAllUnfolds(s: State, blocks: seq<Block>, ignoreSpot: bool)
    requires blocks != []
    ensures var r := Updated(s, blocks[0], ignoreSpot);
            UpdatedAll(s, blocks, ignoreSpot) == if r.ok then UpdatedAll(r.state, blocks[1..], ignoreSpot) else r
  {
    hide Updated;
  }

  /** The blocks above c's height replayed, older ones passed over; None when one leaves a gap or fails. */
  function Onward(c: Core, blocks: seq<Block>, ignoreSpot: bool): Option<Core>
    decreases |blocks|
  {
    if blocks == [] then Some(c)
    else
      var r := ApplyBlock(c, blocks[0], ignoreSpot);
      if r.ok then Onward(r.core, blocks[1..], ignoreSpot) else None
  }

  lemma {:induction false} UpdatedAllOnward(s: State, c: Core, blocks: seq<Block>, ignoreSpot: bool)
    requires SameCore(s.core, c, ignoreSpot) && AllAgree(blocks, ignoreSpot)
    ensures var u, q := UpdatedAll(s, blocks, ignoreSpot), Onward(c, blocks, ignoreSpot);
            (u.ok <==> q.Some?) && (u.ok ==> SameCore(u.state.core, q.value, ignoreSpot))
    decreases |blocks|
  {
    if blocks != [] {
      hide ApplyBlock, SameCore, CoinsAgree;
      BlockCongruent(s.core, c, blocks[0], ignoreSpot);
      var r := Updated(s, blocks[0], ignoreSpot);
      if r.ok {
        UpdatedAllOnward(r.state, ApplyBlock(c, blocks[0], ignoreSpot).core, blocks[1..], ignoreSpot);
      }
    }
  }

  /** Blocks at or below the height are passed over; those above must follow on without a gap. */
  lemma {:induction false} OnwardReplays(c: Core, blocks: seq<Block>, ignoreSpot: bool) returns (past: nat)
    requires forall k, l :: 0 <= k < l < |blocks| ==> blocks[k].statuses.height < blocks[l].statuses.height
    ensures past <= |blocks| && Onward(c, blocks, ignoreSpot) == Replay(c, blocks[past..], ignoreSpot)
    ensures forall k :: 0 <= k < |blocks| ==> (k < past <==> blocks[k].statuses.height <= c.height)
    decreases |blocks|
  {
    hide ApplyBlock;
    if blocks == [] || blocks[0].statuses.height > c.height {
      FirstAbove(c, blocks, ignoreSpot);
      assert blocks[0..] == blocks;
      return 0;
    }
    OldPassedOver(c, blocks[0], ignoreSpot);
    var n := OnwardReplays(c, blocks[1..], ignoreSpot);
    past := n + 1;
    assert blocks[1..][n..] == blocks[past..];
    forall k | 0 <= k < |blocks| ensures k < past <==> blocks[k].statuses.height <= c.height {
      if k > 0 {
        assert blocks[1..][k - 1] == blocks[k];
      }
    }
  }

  lemma OldPassedOver(c: Core, b: Block, ignoreSpot: bool)
    requires b.statuses.height <= c.height
    ensures ApplyBlock(c, b, ignoreSpot) == Advance(c, {}, true)
  {
    hide ApplyDiffs;
  }

  lemma {:induction false} FirstAbove(c: Core, blocks: seq<Block>, ignoreSpot: bool)
    requires forall k, l :: 0 <= k < l < |blocks| ==> blocks[k].statuses.height < blocks[l].statuses.height
    requires blocks != [] ==> blocks[0].statuses.height > c.height
    ensures Onward(c, blocks, ignoreSpot) == Replay(c, blocks, ignoreSpot)
    decreases |blocks|
  {
    if blocks != [] {
      GapRefused(c, blocks[0], ignoreSpot);
      hide ApplyBlock;
      var r := ApplyBlock(c, blocks[0], ignoreSpot);
      if r.ok {
        FirstAbove(r.core, blocks[1..], ignoreSpot);
      }
    }
  }

  lemma GapRefused(c: Core, b: Block, ignoreSpot: bool)
    requires b.statuses.height > c.height
    ensures ApplyBlock(c, b, ignoreSpot).ok ==>
              b.statuses.height == c.height + 1 && ApplyBlock(c, b, ignoreSpot).core.height == c.height + 1
  {
    hide ApplyDiffs;
  }

  /**
   A load from the node's snapshot installs a book exactly when the queued pairs above its height
   replay on the node's books, and it is the one they lead to; nothing is announced.
   */
  lemma LoadInstallsNode(cfg: Config, l: Listener, books: Books, snaps: map<string, Snapshot>, height: nat)
    returns (blocks: seq<Block>, past: nat)
    requires QueuesAccounted(l) && l.live.None? && Increasing(l.statuses.items) && Increasing(l.diffs.items)
    requires Good(books, cfg.ignoreSpot) && ShowsNode(books, snaps, cfg.ignoreSpot)
    requires AllAgree(Common(l.statuses.items, l.diffs.items), cfg.ignoreSpot)
    ensures AllCommon(l.statuses.items, l.diffs.items, blocks) && past <= |blocks|
    ensures forall k :: 0 <= k < |blocks| ==> (k < past <==> blocks[k].statuses.height <= height)
    ensures var r := Finish(cfg, l, l.epoch, None, snaps, height);
            var q := Replay(Core(books, height, 0), blocks[past..], cfg.ignoreSpot);
            && r.ok && (r.l.live.Some? <==> q.Some?)
            && (q.Some? ==> SameCore(r.l.live.value.core, q.value, cfg.ignoreSpot))
  {
    hide *;
    blocks := Common(l.statuses.items, l.diffs.items);
    CommonIsAll(l.statuses.items, l.diffs.items);
    CommonRising(l.statuses.items, l.diffs.items);
    FinishInit(cfg, l, l.epoch, snaps, height);
    var n, c := FromNode(snaps, height, 0), Core(books, height, 0);
    NodeRebuilds(books, snaps, cfg.ignoreSpot);
    LoadedCore(books, snaps, height, cfg.ignoreSpot);
    CacheTaken(l);
    LoadApplies(cfg, TakeCache(l), n);
    UpdatedAllOnward(n, c, blocks, cfg.ignoreSpot);
    past := OnwardReplays(c, blocks, cfg.ignoreSpot);
  }

  lemma CommonRising(s: seq<Batch<Status>>, t: seq<Batch<Diff>>)
    requires Increasing(s) && Increasing(t)
    ensures var b := Common(s, t); forall k, l :: 0 <= k < l < |b| ==> b[k].statuses.height < b[l].statuses.height
  {
    CommonIsAll(s, t);
    hide Common;
  }

  lemma LoadedCore(books: Books, snaps: map<string, Snapshot>, height: nat, ignoreSpot: bool)
    requires SameBooks(FromSnapshots(snaps, true), books, ignoreSpot)
    ensures SameCore(FromNode(snaps, height, 0).core, Core(books, height, 0), ignoreSpot)
  {
    hide FromSnapshot;
  }

  lemma CacheTaken(l: Listener)
    requires QueuesAccounted(l)
    ensures QueuesAccounted(TakeCache(l)) && TakeCache(l).live == l.live
    ensures TakeCache(l).statuses == l.statuses && TakeCache(l).diffs == l.diffs
  {
  }
}
