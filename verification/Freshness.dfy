/**
 The incremental view cache over whole runs. Provided only that the opening status and the New
 diff of an order name one coin, in every reachable state the cached views of every coin not marked
 dirty are those of its current book, and every view map broadcast is the full rebuild of the live
 books at its height.
 */
module Freshness {
  import opened Prelude
  import opened Snapshots
  import opened Blocks
  import opened Replays
  import opened Queues
  import opened BookState
  import opened Listeners
  import opened Audit
  import opened Protocol
  import opened Publication

  /** Which coin each order id belongs to within the block of a height; ignored coins do not matter. */
  datatype Owner = Owner(coinOf: (nat, nat) -> string, ignoreSpot: bool)

  predicate StatusesOwned(b: Batch<Status>, f: Owner) {
    forall i :: 0 <= i < |b.events| && IsInsertedIntoBook(b.events[i]) ==>
      b.events[i].order.coin == f.coinOf(b.height, b.events[i].order.oid)
  }

  predicate DiffsOwned(b: Batch<Diff>, f: Owner) {
    forall i :: 0 <= i < |b.events| && Opens(b.events[i], f.ignoreSpot) ==>
      b.events[i].coin == f.coinOf(b.height, b.events[i].oid)
  }

  predicate BlockOwned(b: Block, f: Owner) {
    Paired(b) && StatusesOwned(b.statuses, f) && DiffsOwned(b.diffs, f)
  }

  ghost predicate BlocksOwned(bs: seq<Block>, f: Owner) {
    forall i :: 0 <= i < |bs| ==> BlockOwned(bs[i], f)
  }

  predicate RecordOwned(r: Record, f: Owner) {
    match r
    case StatusRecord(b, _) => StatusesOwned(b, f)
    case DiffRecord(b, _) => DiffsOwned(b, f)
    case _ => true
  }

  ghost predicate EventOwned(e: Event, f: Owner) {
    e.TurnEv? ==> forall i :: 0 <= i < |e.records| ==> RecordOwned(e.records[i], f)
  }

  ghost predicate QueuesOwned(a: Queue<Status>, b: Queue<Diff>, f: Owner) {
    && (forall i :: 0 <= i < |a.items| ==> StatusesOwned(a.items[i], f))
    && (forall i :: 0 <= i < |b.items| ==> DiffsOwned(b.items[i], f))
  }

  ghost predicate FreshLive(s: Option<State>) {
    s.Some? ==> CacheAgrees(s.value)
  }

  ghost predicate FreshListener(l: Listener, f: Owner) {
    FreshLive(l.live) && QueuesOwned(l.statuses, l.diffs, f) && (l.cache.Some? ==> BlocksOwned(l.cache.value, f))
  }

  ghost predicate FreshSys(s: Sys, f: Owner) {
    FreshListener(s.l, f) && (s.task.Running? ==> FreshLive(s.task.clone))
  }

  // ----- blocks

  lemma OwnedAgrees(b: Block, f: Owner)
    requires BlockOwned(b, f)
    ensures CoinsAgree(b.statuses.events, b.diffs.events, f.ignoreSpot)
  {
  }

  lemma OwnedAllAgree(bs: seq<Block>, f: Owner)
    requires BlocksOwned(bs, f)
    ensures AllAgree(bs, f.ignoreSpot)
  {
    hide BlockOwned, CoinsAgree;
    forall i | 0 <= i < |bs| ensures CoinsAgree(bs[i].statuses.events, bs[i].diffs.events, f.ignoreSpot) {
      OwnedAgrees(bs[i], f);
    }
  }

  lemma UpdatedFresh(s: State, b: Block, f: Owner)
    requires CacheAgrees(s) && BlockOwned(b, f)
    ensures CacheAgrees(Updated(s, b, f.ignoreSpot).state)
  {
    OwnedAgrees(b, f);
    ApplyUpdatesAgrees(s, b, f.ignoreSpot);
  }

  lemma {:induction false} CatchUpOwned(s: State, height: nat, bs: seq<Block>, f: Owner, ignoreSpot: bool)
    requires BlocksOwned(bs, f)
    ensures var c := CatchUp(s, height, bs, ignoreSpot); c.Reached? ==> BlocksOwned(c.rest, f)
    decreases |bs|
  {
    hide BlockOwned, Updated;
    if s.core.height < height && bs != [] {
      var r := Updated(s, bs[0], ignoreSpot);
      if r.ok {
        CatchUpOwned(r.state, height, bs[1..], f, ignoreSpot);
      }
    }
  }

  lemma {:induction false} PopPairOwned(a: Queue<Status>, b: Queue<Diff>, f: Owner)
    requires Accounted(a) && Accounted(b) && QueuesOwned(a, b, f)
    ensures var p := PopPair(a, b);
            && QueuesOwned(p.left, p.right, f)
            && (p.pair.Some? ==> BlockOwned(Block(p.pair.value.0, p.pair.value.1), f))
    decreases |a.items| + |b.items|
  {
    hide StatusesOwned, DiffsOwned, Accounted;
    if a.items != [] && b.items != [] {
      if b.items[0].height < a.items[0].height {
        PopPairOwned(a, DropFront(b), f);
      } else if b.items[0].height > a.items[0].height {
        PopPairOwned(DropFront(a), b, f);
      }
    }
  }

  // ----- records

  lemma EnqueueFresh(cfg: Config, l: Listener, r: Record, f: Owner)
    requires FreshListener(l, f) && RecordOwned(r, f)
    ensures FreshListener(Enqueue(cfg, l, r).l, f)
  {
    hide CacheAgrees, BlocksOwned, StatusesOwned, DiffsOwned;
  }

  lemma AdvancedFresh(cfg: Config, l: Listener, b: Block, f: Owner)
    requires cfg.ignoreSpot == f.ignoreSpot
    requires FreshListener(l, f) && l.live.Some? && BlockOwned(b, f)
    ensures FreshListener(Advanced(cfg, l, b).l, f)
  {
    hide CacheAgrees, QueuesOwned, BlockOwned, Updated;
    UpdatedFresh(l.live.value, b, f);
  }

  lemma ReceiveFresh(cfg: Config, l: Listener, r: Record, f: Owner)
    requires cfg.ignoreSpot == f.ignoreSpot
    requires FreshListener(l, f) && RecordOwned(r, f) && QueuesAccounted(l)
    ensures FreshListener(Receive(cfg, l, r).l, f)
  {
    hide FreshLive, BlocksOwned, QueuesOwned, BlockOwned, RecordOwned, Enqueue, Advanced, PopPair;
    EnqueueFresh(cfg, l, r, f);
    EnqueueAccounted(cfg, l, r);
    var e := Enqueue(cfg, l, r);
    if e.ok && e.l.live.Some? {
      PopPairOwned(e.l.statuses, e.l.diffs, f);
      var p := PopPair(e.l.statuses, e.l.diffs);
      if p.pair.Some? {
        AdvancedFresh(cfg, e.l.(statuses := p.left, diffs := p.right), Block(p.pair.value.0, p.pair.value.1), f);
      }
    }
  }

  lemma {:induction false} ReceiveAllFresh(cfg: Config, l: Listener, rs: seq<Record>, f: Owner)
    requires cfg.ignoreSpot == f.ignoreSpot
    requires FreshListener(l, f) && QueuesAccounted(l)
    requires forall i :: 0 <= i < |rs| ==> RecordOwned(rs[i], f)
    ensures FreshListener(ReceiveAll(cfg, l, rs).l, f)
    decreases |rs|
  {
    hide FreshListener, RecordOwned, Receive, Accounted;
    if rs != [] {
      ReceiveFresh(cfg, l, rs[0], f);
      ReceiveAccounted(cfg, l, rs[0]);
      var q := Receive(cfg, l, rs[0]);
      if q.ok {
        ReceiveAllFresh(cfg, q.l, rs[1..], f);
      }
    }
  }

  // ----- publishing

  /** Every view map among the messages is a full rebuild of the given state's books, at its height and time. */
  ghost predicate Rebuilds(ms: seq<Msg>, live: Option<State>) {
    forall i :: 0 <= i < |ms| && ms[i].L2? ==>
      && live.Some?
      && ms[i] == L2(AllViews(live.value.core.books), live.value.core.time, live.value.core.height)
  }

  lemma PublishFresh(l: Listener, f: Owner)
    requires FreshListener(l, f)
    ensures var l' := PublishViews(l);
            && FreshListener(l', f)
            && (l'.out == l.out || (l'.live.Some? &&
                  l'.out == l.out + [L2(AllViews(l'.live.value.core.books), l'.live.value.core.time,
                                        l'.live.value.core.height)]))
  {
    hide AllViews, QueuesOwned, BlocksOwned;
    if l.live.Some? && !l.live.value.snapped {
      RefreshIsRebuild(l.live.value);
      SnappedCore(l.live.value);
      SnappedFresh(l.live.value);
    }
  }

  lemma SnappedFresh(s: State)
    requires CacheAgrees(s)
    ensures CacheAgrees(Snapped(s)) && CacheAgrees(Refreshed(s))
  {
    RefreshIsRebuild(s);
  }

  ghost predicate NoViews(ms: seq<Msg>) {
    forall i :: 0 <= i < |ms| ==> !ms[i].L2?
  }

  /** Views are only broadcast at the end of a turn. */
  lemma {:induction false} ReceiveAllNoViews(cfg: Config, l: Listener, rs: seq<Record>)
    requires QueuesAccounted(l)
    ensures var l' := ReceiveAll(cfg, l, rs).l; l.out <= l'.out && NoViews(News(l, l'))
    decreases |rs|
  {
    hide Receive, Accounted, NoViews, News;
    if rs == [] {
      NoNews(l);
    } else {
      ReceiveNoViews(cfg, l, rs[0]);
      ReceiveAccounted(cfg, l, rs[0]);
      var q := Receive(cfg, l, rs[0]);
      if q.ok {
        ReceiveAllNoViews(cfg, q.l, rs[1..]);
        NoViewsTrans(l, q.l, ReceiveAll(cfg, q.l, rs[1..]).l);
      }
    }
  }

  lemma NoNews(l: Listener)
    ensures NoViews(News(l, l))
  {
  }

  lemma NoViewsTrans(a: Listener, b: Listener, c: Listener)
    requires a.out <= b.out && b.out <= c.out && NoViews(News(a, b)) && NoViews(News(b, c))
    ensures a.out <= c.out && NoViews(News(a, c))
  {
    assert News(a, c) == News(a, b) + News(b, c);
  }

  lemma OneNews(l: Listener, l': Listener)
    requires l'.out == l.out || (|l'.out| > 0 && l'.out == l.out + [l'.out[|l'.out| - 1]] && !l'.out[|l'.out| - 1].L2?)
    ensures l.out <= l'.out && NoViews(News(l, l'))
  {
  }

  lemma ReceiveNoViews(cfg: Config, l: Listener, r: Record)
    requires QueuesAccounted(l)
    ensures var l' := Receive(cfg, l, r).l; l.out <= l'.out && NoViews(News(l, l'))
  {
    hide Push, PopPair, Updated, NoViews, News;
    EnqueueAccounted(cfg, l, r);
    var e := Enqueue(cfg, l, r);
    OneNews(l, e.l);
    if e.ok && e.l.live.Some? {
      OneNews(e.l, Drain(cfg, e.l).l);
      NoViewsTrans(l, e.l, Drain(cfg, e.l).l);
    }
  }

  lemma ThenRebuilds(l: Listener, l1: Listener, l': Listener)
    requires l.out <= l1.out && NoViews(News(l, l1))
    requires l'.out == l1.out || (l'.live.Some? &&
               l'.out == l1.out + [L2(AllViews(l'.live.value.core.books), l'.live.value.core.time,
                                      l'.live.value.core.height)])
             || l'.out == l1.out + [Gap]
    ensures l.out <= l'.out && Rebuilds(News(l, l'), l'.live)
  {
    hide AllViews;
    assert News(l, l') == News(l, l1) + l'.out[|l1.out|..];
  }

  lemma TurnFresh(cfg: Config, l: Listener, rs: seq<Record>, f: Owner)
    requires cfg.ignoreSpot == f.ignoreSpot
    requires FreshListener(l, f) && QueuesAccounted(l)
    requires forall i :: 0 <= i < |rs| ==> RecordOwned(rs[i], f)
    ensures var l' := Turn(cfg, l, rs);
            FreshListener(l', f) && l.out <= l'.out && Rebuilds(News(l, l'), l'.live)
  {
    hide FreshListener, RecordOwned, ReceiveAll, Accounted, AllViews, Rebuilds, News, NoViews, PublishViews;
    ReceiveAllFresh(cfg, l, rs, f);
    ReceiveAllNoViews(cfg, l, rs);
    var q := ReceiveAll(cfg, l, rs);
    if q.ok {
      PublishFresh(q.l, f);
      ThenRebuilds(l, q.l, PublishViews(q.l));
    } else {
      FenceFresh(q.l, f);
      ThenRebuilds(l, q.l, Fence(q.l));
    }
  }

  lemma FenceFresh(l: Listener, f: Owner)
    ensures FreshListener(Fence(l), f)
  {
  }

  // ----- finishing an audit

  lemma {:induction false} InitLoopFresh(cfg: Config, l: Listener, s: State, f: Owner)
    requires cfg.ignoreSpot == f.ignoreSpot
    requires FreshListener(l, f) && QueuesAccounted(l) && CacheAgrees(s)
    ensures FreshListener(InitLoop(cfg, l, s), f) && InitLoop(cfg, l, s).out == l.out
    decreases |l.statuses.items| + |l.diffs.items|
  {
    hide CacheAgrees, BlocksOwned, QueuesOwned, BlockOwned, PopPair, Updated, Accounted;
    PopPairOwned(l.statuses, l.diffs, f);
    PopShrinks(l.statuses, l.diffs);
    var p := PopPair(l.statuses, l.diffs);
    if p.pair.Some? {
      var b := Block(p.pair.value.0, p.pair.value.1);
      UpdatedFresh(s, b, f);
      var u := Updated(s, b, cfg.ignoreSpot);
      if u.ok {
        InitLoopFresh(cfg, l.(statuses := p.left, diffs := p.right), u.state, f);
      }
    }
  }

  lemma CommitFresh(cfg: Config, l: Listener, n: State, rest: seq<Block>, benign: bool, f: Owner)
    requires cfg.ignoreSpot == f.ignoreSpot
    requires FreshListener(l, f) && CacheAgrees(n) && BlocksOwned(rest, f)
    ensures var l' := Commit(l, UpdatedAll(n, rest, cfg.ignoreSpot).state, benign);
            FreshListener(l', f) && l.out <= l'.out && Rebuilds(News(l, l'), l'.live)
  {
    hide CacheAgrees, BlocksOwned, QueuesOwned, UpdatedAll, AllViews, PublishViews, Rebuilds, NoViews;
    OwnedAllAgree(rest, f);
    UpdatedAllAgrees(n, rest, cfg.ignoreSpot);
    var u := UpdatedAll(n, rest, cfg.ignoreSpot).state;
    var l1 := l.(live := Some(u));
    NoNews(l);
    PublishFresh(l1, f);
    ThenRebuilds(l, l, Commit(l, u, benign));
  }

  lemma FinishFresh(cfg: Config, s: Sys, snaps: map<string, Snapshot>, height: nat, f: Owner)
    requires cfg.ignoreSpot == f.ignoreSpot
    requires FreshSys(s, f) && s.task.Running? && QueuesAccounted(s.l)
    ensures var l' := Finish(cfg, s.l, s.task.epoch, s.task.clone, snaps, height).l;
            FreshListener(l', f) && s.l.out <= l'.out && Rebuilds(News(s.l, l'), l'.live)
  {
    hide CacheAgrees, BlocksOwned, QueuesOwned, CatchUp, UpdatedAll, FromNode, Validate, AllViews, Commit, InitLoop,
         Accounted, NoViews;
    var l := TakeCache(s.l);
    NoNews(s.l);
    FromNodeAgrees(snaps, height, 0);
    InitLoopFresh(cfg, l, FromNode(snaps, height, 0), f);
    if s.task.epoch == s.l.epoch && s.task.clone.Some? {
      var bs := if s.l.cache.Some? then s.l.cache.value else [];
      NoBlocksOwned(f);
      CatchUpOwned(s.task.clone.value, height, bs, f, cfg.ignoreSpot);
      var c := CatchUp(s.task.clone.value, height, bs, cfg.ignoreSpot);
      if c.Reached? {
        FromNodeAgrees(snaps, height, c.state.core.time);
        CommitFresh(cfg, l, FromNode(snaps, height, c.state.core.time), c.rest, true, f);
        CommitFresh(cfg, l, FromNode(snaps, height, 0), c.rest, false, f);
      }
    }
  }

  lemma NoBlocksOwned(f: Owner)
    ensures BlocksOwned([], f)
  {
  }

  // ----- every step, every run

  lemma StepFresh(cfg: Config, s: Sys, e: Event, f: Owner)
    requires cfg.ignoreSpot == f.ignoreSpot
    requires FreshSys(s, f) && Enabled(s, e) && QueuesAccounted(s.l) && EventOwned(e, f)
    ensures var s' := Next(cfg, s, e);
            FreshSys(s', f) && s.l.out <= s'.l.out && Rebuilds(News(s.l, s'.l), s'.l.live)
  {
    hide CacheAgrees, QueuesOwned, RecordOwned, Turn, Finish, Accounted, AllViews;
    if e.TurnEv? {
      TurnFresh(cfg, s.l, e.records, f);
    } else if e.FenceEv? || e.CrashEv? || (e.JoinEv? && !s.task.ok) {
      FenceFresh(s.l, f);
    } else if e.FinishEv? {
      FinishFresh(cfg, s, e.snaps, e.height, f);
    } else if e.ReadEv? && s.l.live.Some? {
      SnappedFresh(s.l.live.value);
    }
  }

  /**
   In every reachable state the cache agrees with the books; with StepFresh, every broadcast on the
   way is a full rebuild.
   */
  lemma {:induction false} RunFresh(cfg: Config, s: Sys, es: seq<Event>, f: Owner)
    requires cfg.ignoreSpot == f.ignoreSpot
    requires Inv(cfg, s) && FreshSys(s, f) && forall i :: 0 <= i < |es| ==> EventOwned(es[i], f)
    ensures var r := RunEvents(cfg, s, es); r.Some? ==> FreshSys(r.value, f)
    decreases |es|
  {
    hide Inv, Next, FreshSys, EventOwned, Accounted;
    if es != [] && Enabled(s, es[0]) {
      StepKeeps(cfg, s, es[0]);
      StepFresh(cfg, s, es[0], f);
      RunFresh(cfg, Next(cfg, s, es[0]), es[1..], f);
    }
  }
}
