/**
 What an audit does to the live books. One that finds no divergence may still rebuild everything
 from the node snapshot; the rebuild leaves out orders of size zero, and this module says exactly
 when that goes unnoticed.
 */
module AuditEffects {
  import opened Prelude
  import opened Orders
  import opened FlatBook
  import opened Snapshots
  import opened Blocks
  import opened Replays
  import opened Scopes
  import opened Queues
  import opened BookState
  import opened Listeners
  import opened Audit
  import opened Protocol
  import opened Thinning
  import opened ThinReplays

  // ----- the rebuild as thinning

  function ZeroOids(s: seq<Order>): set<nat> {
    set i | 0 <= i < |s| && s[i].sz == 0 :: s[i].oid
  }

  /** The orders of size zero, per coin. */
  function ZeroSizes(books: Books): Gone {
    map c | c in books :: ZeroOids(books[c].bids) + ZeroOids(books[c].asks)
  }

  lemma {:induction false} PositiveIsKeep(s: seq<Order>, z: set<nat>)
    requires forall i :: 0 <= i < |s| ==> (s[i].oid in z <==> s[i].sz == 0)
    ensures Keep(s, z) == Positive(s)
  {
    if s != [] {
      PositiveIsKeep(s[1..], z);
    }
  }

  /** In a well-formed book an oid tells whether its order has size zero. */
  lemma ZeroOidsTell(b: Book, z: set<nat>)
    requires WellFormed(b) && z == ZeroOids(b.bids) + ZeroOids(b.asks)
    ensures forall i :: 0 <= i < |b.bids| ==> (b.bids[i].oid in z <==> b.bids[i].sz == 0)
    ensures forall i :: 0 <= i < |b.asks| ==> (b.asks[i].oid in z <==> b.asks[i].sz == 0)
    ensures Droppable(b, z)
  {
    hide WellFormed, ZeroOids;
    OidsUniqueInBook(b);
    SidesIndexed(b);
    ZeroTold(b.bids, b.asks);
    ZeroTold(b.asks, b.bids);
    ZeroListed(b.bids, b.index);
    ZeroListed(b.asks, b.index);
  }

  lemma ZeroTold(s: seq<Order>, t: seq<Order>)
    requires forall i, j :: 0 <= i < j < |s| ==> s[i].oid != s[j].oid
    requires forall i, j :: 0 <= i < |s| && 0 <= j < |t| ==> s[i].oid != t[j].oid
    ensures forall i :: 0 <= i < |s| ==> (s[i].oid in ZeroOids(s) + ZeroOids(t) <==> s[i].sz == 0)
  {
    forall i | 0 <= i < |s| ensures s[i].oid in ZeroOids(s) + ZeroOids(t) <==> s[i].sz == 0 {
      if s[i].oid in ZeroOids(s) {
        var j :| 0 <= j < |s| && s[j].sz == 0 && s[j].oid == s[i].oid;
      }
    }
  }

  lemma ZeroListed(s: seq<Order>, index: map<nat, (Side, nat)>)
    requires forall i :: 0 <= i < |s| ==> s[i].oid in index
    ensures ZeroOids(s) <= index.Keys
  {
  }

  lemma RebuildThinsBook(b: Book, z: set<nat>)
    requires WellFormed(b) && z == ZeroOids(b.bids) + ZeroOids(b.asks)
    ensures FromSnapshot(ToSnapshot(b), true) == Thin(b, z) && Droppable(b, z)
  {
    hide WellFormed, FromSnapshot, ZeroOids, Keep;
    var r := FromSnapshot(ToSnapshot(b), true);
    RebuildKeepsPositive(b);
    ZeroOidsTell(b, z);
    PositiveIsKeep(b.bids, z);
    PositiveIsKeep(b.asks, z);
    ThinIndex(b, r, z);
  }

  /** The sides determine the index of the rebuilt book. */
  lemma ThinIndex(b: Book, r: Book, z: set<nat>)
    requires WellFormed(b) && WellFormed(r) && r.bids == Keep(b.bids, z) && r.asks == Keep(b.asks, z)
    ensures r.index == b.index - z
  {
    hide Sound, Find, Keep;
    forall oid | oid in r.index ensures oid in b.index - z && b.index[oid] == r.index[oid] {
      var (side, px) := r.index[oid];
      EntryRests(r, oid);
      KeptRests(OnSide(b, side), z, px, oid);
      IndexedAt(OnSide(b, side), side, b.index, px, oid);
    }
    forall oid | oid in b.index - z ensures oid in r.index {
      var (side, px) := b.index[oid];
      EntryRests(b, oid);
      FindKeep(OnSide(b, side), z, px, oid);
      IndexedAt(OnSide(r, side), side, r.index, px, oid);
    }
  }

  lemma KeptRests(s: seq<Order>, z: set<nat>, px: nat, oid: nat)
    requires Rests(Keep(s, z), px, oid)
    ensures oid !in z && Rests(s, px, oid)
  {
    if oid in z {
      NotFoundAmong(s, z, px, oid);
    } else {
      FindKeep(s, z, px, oid);
    }
  }

  lemma RebuildThinsCoin(books: Books, snaps: map<string, Snapshot>, ignoreSpot: bool, c: string)
    requires Exact(books, ignoreSpot) && Consistent(ToSnapshots(books), snaps, ignoreSpot) && !Ignored(c, ignoreSpot)
    ensures BookOf(FromSnapshots(snaps, true), c) == Thin(BookOf(books, c), GoneOf(ZeroSizes(books), c))
    ensures WellFormed(BookOf(books, c)) && Droppable(BookOf(books, c), GoneOf(ZeroSizes(books), c))
  {
    hide WellFormed, FromSnapshot, Ignored, Droppable, Thin, ZeroOids;
    RebuildEmpty();
    ThinEmpty();
    if c in books {
      RebuildThinsBook(books[c], GoneOf(ZeroSizes(books), c));
      if c in snaps {
        assert snaps[c] == ToSnapshot(books[c]);
      } else {
        EmptyBook(books[c]);
        NoZeros();
      }
    } else if c in snaps {
      assert snaps[c] == Snapshot([], []);
    }
  }

  lemma ThinEmpty()
    ensures Thin(EMPTY, {}) == EMPTY && WellFormed(EMPTY) && Droppable(EMPTY, {})
  {
    EmptyWellFormed();
  }

  lemma NoZeros()
    ensures ZeroOids([]) == {}
  {
  }

  /** Rebuilding from a consistent snapshot leaves out exactly the orders of size zero. */
  lemma RebuildThins(books: Books, snaps: map<string, Snapshot>, ignoreSpot: bool)
    requires Exact(books, ignoreSpot) && Consistent(ToSnapshots(books), snaps, ignoreSpot)
    ensures Thinned(books, FromSnapshots(snaps, true), ZeroSizes(books), ignoreSpot)
    ensures Loose(books, ZeroSizes(books), ignoreSpot)
  {
    hide WellFormed, FromSnapshots, Ignored, Droppable, Thin, ZeroSizes, Exact, Consistent;
    forall c | !Ignored(c, ignoreSpot)
      ensures BookOf(FromSnapshots(snaps, true), c) == Thin(BookOf(books, c), GoneOf(ZeroSizes(books), c))
      ensures WellFormed(BookOf(books, c)) && Droppable(BookOf(books, c), GoneOf(ZeroSizes(books), c))
    {
      RebuildThinsCoin(books, snaps, ignoreSpot, c);
    }
  }

  // ----- benign audits

  /** The state at the snapshot's height that the audit compares, and the remembered blocks after it. */
  ghost function Baseline(cfg: Config, s: Sys, height: nat): Caught
    requires s.task.Running? && s.task.clone.Some? && s.l.cache.Some?
  {
    CatchUp(s.task.clone.value, height, s.l.cache.value, cfg.ignoreSpot)
  }

  ghost predicate AuditOfLive(cfg: Config, s: Sys) {
    AuditInv(cfg, s) && s.task.Running? && s.task.epoch == s.l.epoch && s.l.live.Some? && QueuesAccounted(s.l)
  }

  /** The rebuilt state of a benign audit with later blocks replayed. */
  lemma RebuildIff(s: State, snaps: map<string, Snapshot>, rest: seq<Block>, ignoreSpot: bool, live: Core)
    requires Exact(s.core.books, ignoreSpot) && Consistent(ToSnapshots(s.core.books), snaps, ignoreSpot)
    requires Replay(s.core, rest, ignoreSpot) == Some(live) && AllAgree(rest, ignoreSpot)
    requires FreshReplay(s.core, rest, ignoreSpot)
    ensures var u := UpdatedAll(FromNode(snaps, s.core.height, s.core.time), rest, ignoreSpot);
            var g := AfterBlocks(s.core, ZeroSizes(s.core.books), rest, ignoreSpot);
            && (u.ok <==> g.Some?)
            && (u.ok && SameCore(u.state.core, live, ignoreSpot) <==> g.Some? && NoneGone(g.value, ignoreSpot))
  {
    hide FromSnapshots, Consistent, Exact, SameBooks, Replay, UpdatedAll, FreshReplay, AllAgree, AfterBlocks, Thinned,
         Loose, NoneGone, ZeroSizes;
    RebuildThins(s.core.books, snaps, ignoreSpot);
    var n := FromNode(snaps, s.core.height, s.core.time);
    var g := ZeroSizes(s.core.books);
    assert ThinnedCore(s.core, n.core, g, ignoreSpot);
    ReplayThin(s.core, n.core, g, rest, ignoreSpot);
    ReplayHeights(s.core, rest, ignoreSpot);
    UpdatedAllIsReplay(n, rest, ignoreSpot);
    var a := AfterBlocks(s.core, g, rest, ignoreSpot);
    if a.Some? {
      SameIffNoneGone(live.books, UpdatedAll(n, rest, ignoreSpot).state.core.books, a.value, ignoreSpot);
    }
  }

  /**
   An audit that only finds new empty books rebuilds everything. It goes unnoticed, keeping every
   order, the height and the time and announcing no gap, if and only if every order missing from
   the rebuilt books, at first those that have size zero at the snapshot's height, is matched away
   by the later remembered blocks before any of them names it. Otherwise it fails, and the stream
   is fenced, or it loses those orders.
   */
  lemma BenignAuditIff(cfg: Config, s: Sys, snaps: map<string, Snapshot>, height: nat)
    requires AuditOfLive(cfg, s) && AuditVerdict(cfg, s, snaps, height) == Some(EmptyBooksAdded)
    requires var c := Baseline(cfg, s, height);
             && Exact(c.state.core.books, cfg.ignoreSpot)
             && AllAgree(c.rest, cfg.ignoreSpot) && FreshReplay(c.state.core, c.rest, cfg.ignoreSpot)
    ensures var r := Finish(cfg, s.l, s.task.epoch, s.task.clone, snaps, height);
            var c := Baseline(cfg, s, height);
            var g := AfterBlocks(c.state.core, ZeroSizes(c.state.core.books), c.rest, cfg.ignoreSpot);
            && (r.ok <==> g.Some?)
            && r.l.live.Some?
            && (r.ok && SameCore(r.l.live.value.core, s.l.live.value.core, cfg.ignoreSpot) <==>
                 g.Some? && NoneGone(g.value, cfg.ignoreSpot))
            && (r.ok ==> r.l.out == s.l.out + [L2(r.l.live.value.cache, s.l.live.value.core.time,
                                                  s.l.live.value.core.height)])
  {
    hide Replay, ApplyBlock, CatchUp, UpdatedAll, SplitAt, FromNode, Consistent, Refreshed, Exact, SameBooks, AllAgree,
         FreshReplay,
         AfterBlocks, ZeroSizes, NoneGone, Accounted;
    var live, clone, blocks := s.l.live.value.core, s.task.clone.value, s.l.cache.value;
    var c := CatchUp(clone, height, blocks, cfg.ignoreSpot);
    CatchUpSplits(clone, height, blocks, cfg.ignoreSpot, live);
    RestLeadsOn(clone.core, c.state.core, blocks, c.rest, cfg.ignoreSpot, live);
    RebuildIff(c.state, snaps, c.rest, cfg.ignoreSpot, live);
    var n := FromNode(snaps, height, c.state.core.time);
    FromNodeHeader(snaps, height, c.state.core.time);
    StaysUnsnapped(n, c.rest, cfg.ignoreSpot);
    SnappedCore(UpdatedAll(n, c.rest, cfg.ignoreSpot).state);
    CommitsAtLiveHeight(cfg, s, snaps, height);
  }

  /**
   Whatever the sizes afterwards, books without a zero size at the snapshot's height make every
   audit that finds no divergence unnoticed: same orders of every coin that is not ignored, same
   height and time, and no gap. Nothing is asked of the later blocks but one coin per order.
   */
  lemma BenignAuditInvisible(cfg: Config, s: Sys, snaps: map<string, Snapshot>, height: nat)
    requires AuditOfLive(cfg, s) && AuditVerdict(cfg, s, snaps, height) != Some(Diverged)
    requires AuditVerdict(cfg, s, snaps, height) == Some(EmptyBooksAdded) ==>
               var c := Baseline(cfg, s, height);
               Good(c.state.core.books, cfg.ignoreSpot) && AllAgree(c.rest, cfg.ignoreSpot)
    ensures var r := Finish(cfg, s.l, s.task.epoch, s.task.clone, snaps, height);
            && r.ok && r.l.live.Some? && SameCore(r.l.live.value.core, s.l.live.value.core, cfg.ignoreSpot)
            && (r.l.out == s.l.out ||
                r.l.out == s.l.out + [L2(r.l.live.value.cache, s.l.live.value.core.time, s.l.live.value.core.height)])
            && (AuditVerdict(cfg, s, snaps, height) != Some(EmptyBooksAdded) ==>
                 r.l.live == s.l.live && r.l.out == s.l.out)
  {
    hide Replay, ApplyBlock, CatchUp, UpdatedAll, SplitAt, FromNode, Consistent, Refreshed, Good, SameBooks, AllAgree,
         Accounted;
    var live, clone, blocks := s.l.live.value.core, s.task.clone.value, s.l.cache.value;
    SameSelf(live, cfg.ignoreSpot);
    CommitsAtLiveHeight(cfg, s, snaps, height);
    if AuditVerdict(cfg, s, snaps, height) == Some(EmptyBooksAdded) {
      CatchUpSplits(clone, height, blocks, cfg.ignoreSpot, live);
      var c := CatchUp(clone, height, blocks, cfg.ignoreSpot);
      RestLeadsOn(clone.core, c.state.core, blocks, c.rest, cfg.ignoreSpot, live);
      BenignRebuild(c.state, snaps, c.rest, cfg.ignoreSpot, live);
      var n := FromNode(snaps, height, c.state.core.time);
      FromNodeHeader(snaps, height, c.state.core.time);
      StaysUnsnapped(n, c.rest, cfg.ignoreSpot);
      SnappedCore(UpdatedAll(n, c.rest, cfg.ignoreSpot).state);
    }
  }

  lemma SameSelf(c: Core, ignoreSpot: bool)
    ensures SameCore(c, c, ignoreSpot)
  {
  }
}
