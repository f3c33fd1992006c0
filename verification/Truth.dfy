/**
 The listener against the node it follows. When every batch is the node's batch of its height and
 every snapshot shows the node's orders at its height, then in every reachable state, through any
 fences, expiries, crashes and audits, the live books are the node's books at the live height, and
 so is all that is published.
 */
module Truth {
  import opened Prelude
  import opened FlatBook
  import opened Snapshots
  import opened Views
  import opened Blocks
  import opened Replays
  import opened Scopes
  import opened Queues
  import opened BookState
  import opened Listeners
  import opened Audit
  import opened Protocol
  import opened NodeChain
  import opened Publication

  /** Fills do not touch books, and a malformed record is never applied. */
  predicate TrueRecord(n: Node, r: Record) {
    match r
    case StatusRecord(b, _) => TrueStatuses(n, b)
    case DiffRecord(b, _) => TrueDiffs(n, b)
    case _ => true
  }

  /** The node's orders at that height, a missing book standing for an empty one. */
  ghost predicate TrueSnaps(n: Node, snaps: map<string, Snapshot>, height: nat, ignoreSpot: bool) {
    Covers(n, height) && Consistent(ToSnapshots(At(n, height, ignoreSpot).books), snaps, ignoreSpot)
  }

  ghost predicate TrueEvent(n: Node, e: Event, ignoreSpot: bool) {
    match e
    case TurnEv(rs) => forall i :: 0 <= i < |rs| ==> TrueRecord(n, rs[i])
    case FinishEv(snaps, height) => TrueSnaps(n, snaps, height, ignoreSpot)
    case _ => true
  }

  /** Exactly the views of the given books; a coin without views has no orders. */
  ghost predicate ShowsBooks(views: ViewMap, books: Books, ignoreSpot: bool) {
    forall c :: !Ignored(c, ignoreSpot) ==>
      if c in views then views[c] == ViewsOf(BookOf(books, c)) else BookOf(books, c) == EMPTY
  }

  ghost predicate TrueMsg(n: Node, loads: set<nat>, m: Msg, ignoreSpot: bool) {
    match m
    case L4(b) =>
      && n.start.height < b.statuses.height <= n.start.height + |n.chain|
      && b == n.chain[b.statuses.height - n.start.height - 1]
    case L2(views, time, h) =>
      && Covers(n, h) && TrueTime(n, loads, time, h, ignoreSpot)
      && ShowsBooks(views, At(n, h, ignoreSpot).books, ignoreSpot)
    case _ => true
  }

  ghost predicate TrueQueues(n: Node, a: Queue<Status>, b: Queue<Diff>) {
    && (forall i :: 0 <= i < |a.items| ==> TrueStatuses(n, a.items[i]))
    && (forall i :: 0 <= i < |b.items| ==> TrueDiffs(n, b.items[i]))
  }

  ghost predicate TrueOut(n: Node, loads: set<nat>, out: seq<Msg>, ignoreSpot: bool) {
    forall i :: 0 <= i < |out| ==> TrueMsg(n, loads, out[i], ignoreSpot)
  }

  ghost predicate TrueLive(n: Node, loads: set<nat>, s: Option<State>, ignoreSpot: bool) {
    s.Some? ==> TrueState(n, loads, s.value, ignoreSpot)
  }

  ghost predicate TrueListener(n: Node, loads: set<nat>, l: Listener, ignoreSpot: bool) {
    && TrueLive(n, loads, l.live, ignoreSpot)
    && TrueQueues(n, l.statuses, l.diffs)
    && (l.cache.Some? ==> TrueBlocks(n, l.cache.value))
    && TrueOut(n, loads, l.out, ignoreSpot)
  }

  /** The heights of the snapshots from which a book has been loaded, in order. */
  type Loads = seq<nat>

  function AllLoads(loads: Loads): set<nat> {
    set h | h in loads
  }

  function LastLoad(loads: Loads): set<nat> {
    if loads == [] then {} else {loads[|loads| - 1]}
  }

  /** Everything is the node's. The live time is 0 only while no block has been applied since the last load. */
  ghost predicate TrueSys(n: Node, loads: Loads, s: Sys, ignoreSpot: bool) {
    && TrueListener(n, AllLoads(loads), s.l, ignoreSpot)
    && (s.task.Running? ==> TrueLive(n, AllLoads(loads), s.task.clone, ignoreSpot))
    && TimedLive(n, LastLoad(loads), s.l.live, ignoreSpot)
  }

  ghost predicate TimedLive(n: Node, loads: set<nat>, s: Option<State>, ignoreSpot: bool) {
    s.Some? ==> TrueTime(n, loads, s.value.core.time, s.value.core.height, ignoreSpot)
  }

  /** A step that makes the listener ready loads a book from the snapshot it brings. */
  ghost function NextLoads(cfg: Config, s: Sys, e: Event, loads: Loads): Loads
    requires Enabled(s, e) && QueuesAccounted(s.l)
  {
    if e.FinishEv? && s.l.live.None? && Next(cfg, s, e).l.live.Some? then loads + [e.height] else loads
  }

  ghost function RunLoads(cfg: Config, s: Sys, es: seq<Event>, loads: Loads): Loads
    requires Inv(cfg, s)
    decreases |es|
  {
    if es == [] || !Enabled(s, es[0]) then loads
    else
      StepKeeps(cfg, s, es[0]);
      RunLoads(cfg, Next(cfg, s, es[0]), es[1..], NextLoads(cfg, s, es[0], loads))
  }

  // ----- views

  lemma ViewsTrue(n: Node, loads: set<nat>, s: State, ignoreSpot: bool)
    requires TrueState(n, loads, s, ignoreSpot)
    ensures var r := Snapped(s);
            TrueState(n, loads, r, ignoreSpot) && TrueState(n, loads, Refreshed(s), ignoreSpot)
    ensures !s.snapped ==> TrueMsg(n, loads, L2(Snapped(s).cache, s.core.time, s.core.height), ignoreSpot)
  {
    hide ViewsOf, At, Covers;
    RefreshIsRebuild(s);
    SnappedCore(s);
    ShowsSame(s.core.books, At(n, s.core.height, ignoreSpot).books, ignoreSpot);
  }

  lemma ShowsSame(x: Books, y: Books, ignoreSpot: bool)
    requires SameBooks(x, y, ignoreSpot)
    ensures ShowsBooks(AllViews(x), y, ignoreSpot)
  {
    hide ViewsOf, Ignored;
  }

  lemma PublishTrue(n: Node, loads: set<nat>, l: Listener, ignoreSpot: bool)
    requires TrueListener(n, loads, l, ignoreSpot)
    ensures TrueListener(n, loads, PublishViews(l), ignoreSpot)
  {
    if l.live.Some? && !l.live.value.snapped {
      ViewsTrue(n, loads, l.live.value, ignoreSpot);
      SnappedCore(l.live.value);
    }
    hide TrueState, TrueMsg, TrueQueues, TrueBlocks, Snapped;
  }

  // ----- records

  lemma EnqueueTrue(cfg: Config, n: Node, loads: set<nat>, l: Listener, r: Record)
    requires TrueListener(n, loads, l, cfg.ignoreSpot) && TrueRecord(n, r)
    ensures TrueListener(n, loads, Enqueue(cfg, l, r).l, cfg.ignoreSpot)
  {
    hide TrueState, TrueBlocks, TrueStatuses, TrueDiffs;
  }

  lemma {:induction false} PopPairTrue(n: Node, a: Queue<Status>, b: Queue<Diff>)
    requires Accounted(a) && Accounted(b) && TrueQueues(n, a, b)
    ensures var p := PopPair(a, b);
            && TrueQueues(n, p.left, p.right)
            && (p.pair.Some? ==> TrueBlock(n, Block(p.pair.value.0, p.pair.value.1)))
    decreases |a.items| + |b.items|
  {
    hide TrueStatuses, TrueDiffs, Accounted;
    if a.items != [] && b.items != [] {
      if b.items[0].height < a.items[0].height {
        PopPairTrue(n, a, DropFront(b));
      } else if b.items[0].height > a.items[0].height {
        PopPairTrue(n, DropFront(a), b);
      }
    }
  }

  lemma RememberTrue(cfg: Config, n: Node, loads: set<nat>, l: Listener, b: Block)
    requires TrueListener(n, loads, l, cfg.ignoreSpot) && TrueBlock(n, b)
    ensures TrueListener(n, loads, Remember(cfg, l, b), cfg.ignoreSpot)
  {
    hide TrueState, TrueQueues, TrueBlock, TrueMsg;
  }

  lemma AdvancedTrue(cfg: Config, n: Node, loads: set<nat>, l: Listener, b: Block)
    requires NodeOk(n, cfg.ignoreSpot) && TrueListener(n, loads, l, cfg.ignoreSpot) && l.live.Some? && TrueBlock(n, b)
    ensures var r := Advanced(cfg, l, b);
            && TrueOut(n, loads, r.l.out, cfg.ignoreSpot)
            && (r.ok ==> TrueListener(n, loads, r.l, cfg.ignoreSpot))
  {
    hide NodeOk, TrueState, TrueQueues, TrueBlocks, Updated;
    var r := Advanced(cfg, l, b);
    var s := l.live.value;
    if r.ok && b.statuses.height > s.core.height {
      UpdatedTrue(n, loads, s, b, cfg.ignoreSpot);
      LiveCovered(n, loads, s, cfg.ignoreSpot);
      TrueIsNodes(n, b);
      assert TrueMsg(n, loads, L4(b), cfg.ignoreSpot);
      hide TrueBlock, TrueMsg;
      RememberTrue(cfg, n, loads, l.(live := Some(Updated(s, b, cfg.ignoreSpot).state)), b);
      hide Remember;
      assert TrueListener(n, loads, r.l, cfg.ignoreSpot);
    }
  }

  lemma ReceiveTrue(cfg: Config, n: Node, loads: set<nat>, l: Listener, r: Record)
    requires NodeOk(n, cfg.ignoreSpot) && TrueListener(n, loads, l, cfg.ignoreSpot) && TrueRecord(n, r)
    requires QueuesAccounted(l)
    ensures var q := Receive(cfg, l, r);
            && TrueOut(n, loads, q.l.out, cfg.ignoreSpot)
            && (q.ok ==> TrueListener(n, loads, q.l, cfg.ignoreSpot))
  {
    hide NodeOk, TrueLive, TrueBlocks, TrueOut, TrueRecord, Enqueue, Advanced;
    EnqueueTrue(cfg, n, loads, l, r);
    EnqueueAccounted(cfg, l, r);
    var e := Enqueue(cfg, l, r);
    if e.ok && e.l.live.Some? {
      PopPairTrue(n, e.l.statuses, e.l.diffs);
      var p := PopPair(e.l.statuses, e.l.diffs);
      var l1 := e.l.(statuses := p.left, diffs := p.right);
      hide PopPair;
      assert TrueQueues(n, p.left, p.right);
      if p.pair.Some? {
        AdvancedTrue(cfg, n, loads, l1, Block(p.pair.value.0, p.pair.value.1));
      }
    }
  }

  lemma {:induction false} ReceiveAllTrue(cfg: Config, n: Node, loads: set<nat>, l: Listener, rs: seq<Record>)
    requires NodeOk(n, cfg.ignoreSpot) && TrueListener(n, loads, l, cfg.ignoreSpot) && QueuesAccounted(l)
    requires forall i :: 0 <= i < |rs| ==> TrueRecord(n, rs[i])
    ensures var q := ReceiveAll(cfg, l, rs);
            && TrueOut(n, loads, q.l.out, cfg.ignoreSpot)
            && (q.ok ==> TrueListener(n, loads, q.l, cfg.ignoreSpot))
    decreases |rs|
  {
    OutTrue(n, loads, l, cfg.ignoreSpot);
    hide NodeOk, TrueListener, TrueOut, TrueRecord, Receive, Accounted;
    if rs != [] {
      ReceiveTrue(cfg, n, loads, l, rs[0]);
      ReceiveAccounted(cfg, l, rs[0]);
      var q := Receive(cfg, l, rs[0]);
      if q.ok {
        ReceiveAllTrue(cfg, n, loads, q.l, rs[1..]);
      }
    }
  }

  lemma OutTrue(n: Node, loads: set<nat>, l: Listener, ignoreSpot: bool)
    requires TrueListener(n, loads, l, ignoreSpot)
    ensures TrueOut(n, loads, l.out, ignoreSpot)
  {
  }

  lemma FenceTrue(n: Node, loads: set<nat>, l: Listener, ignoreSpot: bool)
    requires TrueOut(n, loads, l.out, ignoreSpot)
    ensures TrueListener(n, loads, Fence(l), ignoreSpot)
  {
  }

  lemma TurnTrue(cfg: Config, n: Node, loads: set<nat>, l: Listener, rs: seq<Record>)
    requires NodeOk(n, cfg.ignoreSpot) && TrueListener(n, loads, l, cfg.ignoreSpot) && QueuesAccounted(l)
    requires forall i :: 0 <= i < |rs| ==> TrueRecord(n, rs[i])
    ensures TrueListener(n, loads, Turn(cfg, l, rs), cfg.ignoreSpot)
  {
    hide NodeOk, TrueListener, TrueOut, TrueRecord, ReceiveAll, Accounted, PublishViews, Fence;
    ReceiveAllTrue(cfg, n, loads, l, rs);
    var q := ReceiveAll(cfg, l, rs);
    if q.ok {
      PublishTrue(n, loads, q.l, cfg.ignoreSpot);
    } else {
      FenceTrue(n, loads, q.l, cfg.ignoreSpot);
    }
  }

  // ----- snapshots

  /** A node snapshot rebuilds to the node's books. */
  lemma FromNodeTrue(n: Node, loads: set<nat>, snaps: map<string, Snapshot>, height: nat, time: nat, ignoreSpot: bool)
    requires NodeOk(n, ignoreSpot) && TrueSnaps(n, snaps, height, ignoreSpot)
    requires TrueTime(n, loads, time, height, ignoreSpot)
    ensures TrueState(n, loads, FromNode(snaps, height, time), ignoreSpot)
  {
    NodeGood(n, height, ignoreSpot);
    hide NodeOk, At, Good, Consistent, FromSnapshots, SameBooks, CacheAgrees;
    var m := At(n, height, ignoreSpot);
    GoodIsExact(m.books, ignoreSpot);
    RebuildBooksIff(m.books, snaps, ignoreSpot);
    FromNodeAgrees(snaps, height, time);
  }

  /** Interchangeable books are consistent with the same snapshots. */
  lemma ConsistentCongruent(x: Books, y: Books, snaps: map<string, Snapshot>, ignoreSpot: bool)
    requires SameBooks(x, y, ignoreSpot) && Consistent(ToSnapshots(y), snaps, ignoreSpot)
    ensures Consistent(ToSnapshots(x), snaps, ignoreSpot)
  {
    hide Ignored, SameBooks;
    forall c | c in x && !Ignored(c, ignoreSpot)
      ensures if c in snaps then ToSnapshots(x)[c] == snaps[c] else EmptySnapshot(ToSnapshots(x)[c])
    {
      SameBookOf(x, y, c, ignoreSpot);
      assert c in y ==> ToSnapshots(y)[c] == ToSnapshot(x[c]);
    }
    forall c | c in snaps && !Ignored(c, ignoreSpot) && c !in x ensures EmptySnapshot(snaps[c]) {
      SameBookOf(x, y, c, ignoreSpot);
      assert c in y ==> ToSnapshots(y)[c] == Snapshot([], []);
    }
  }

  /** Audits of a true state against a true snapshot never find a divergence. */
  lemma NoDivergence(n: Node, loads: set<nat>, s: State, snaps: map<string, Snapshot>, ignoreSpot: bool)
    requires TrueState(n, loads, s, ignoreSpot) && TrueSnaps(n, snaps, s.core.height, ignoreSpot)
    ensures Validate(ToSnapshots(s.core.books), snaps, ignoreSpot) != Diverged
  {
    hide At, SameBooks, Consistent, CacheAgrees;
    ConsistentCongruent(s.core.books, At(n, s.core.height, ignoreSpot).books, snaps, ignoreSpot);
  }

  lemma {:induction false} InitLoopTrue(cfg: Config, n: Node, loads: set<nat>, l: Listener, s: State)
    requires NodeOk(n, cfg.ignoreSpot) && TrueListener(n, loads, l, cfg.ignoreSpot) && QueuesAccounted(l)
    requires l.live.None?
    requires TrueState(n, loads, s, cfg.ignoreSpot)
    ensures TrueListener(n, loads, InitLoop(cfg, l, s), cfg.ignoreSpot)
    decreases |l.statuses.items| + |l.diffs.items|
  {
    hide NodeOk, TrueState, TrueBlocks, TrueOut, PopPair, Updated, Accounted, TrueStatuses, TrueDiffs, TrueBlock;
    PopPairTrue(n, l.statuses, l.diffs);
    PopShrinks(l.statuses, l.diffs);
    var p := PopPair(l.statuses, l.diffs);
    if p.pair.Some? {
      var b := Block(p.pair.value.0, p.pair.value.1);
      UpdatedTrue(n, loads, s, b, cfg.ignoreSpot);
      var u := Updated(s, b, cfg.ignoreSpot);
      if u.ok {
        InitLoopTrue(cfg, n, loads, l.(statuses := p.left, diffs := p.right), u.state);
      }
    }
  }

  /** What an audit without divergence commits. */
  lemma CommitTrue(cfg: Config, n: Node, loads: set<nat>, l: Listener, s: State, snaps: map<string, Snapshot>,
                   rest: seq<Block>)
    requires NodeOk(n, cfg.ignoreSpot) && TrueListener(n, loads, l, cfg.ignoreSpot)
    requires TrueState(n, loads, s, cfg.ignoreSpot) && TrueBlocks(n, rest)
    requires TrueSnaps(n, snaps, s.core.height, cfg.ignoreSpot)
    ensures var u := UpdatedAll(FromNode(snaps, s.core.height, s.core.time), rest, cfg.ignoreSpot);
            u.ok ==> TrueListener(n, loads, Commit(l, u.state, true), cfg.ignoreSpot)
  {
    hide NodeOk, TrueState, TrueBlocks, TrueOut, TrueQueues, TrueSnaps, UpdatedAll, FromNode, PublishViews;
    TimeTrue(n, loads, s, cfg.ignoreSpot);
    FromNodeTrue(n, loads, snaps, s.core.height, s.core.time, cfg.ignoreSpot);
    var m := FromNode(snaps, s.core.height, s.core.time);
    UpdatedAllTrue(n, loads, m, rest, cfg.ignoreSpot);
    var u := UpdatedAll(m, rest, cfg.ignoreSpot);
    if u.ok {
      PublishTrue(n, loads, l.(live := Some(u.state)), cfg.ignoreSpot);
    }
  }

  lemma ReconcileTrue(cfg: Config, n: Node, loads: set<nat>, l: Listener, clone: State, snaps: map<string, Snapshot>,
                      height: nat, bs: seq<Block>)
    requires NodeOk(n, cfg.ignoreSpot) && TrueListener(n, loads, l, cfg.ignoreSpot) && QueuesAccounted(l)
    requires TrueState(n, loads, clone, cfg.ignoreSpot) && TrueBlocks(n, bs)
    requires TrueSnaps(n, snaps, height, cfg.ignoreSpot)
    ensures TrueListener(n, loads, Reconcile(cfg, l, Some(clone), snaps, height, bs).l, cfg.ignoreSpot)
  {
    CatchUpTrue(n, loads, clone, height, bs, cfg.ignoreSpot);
    var c := CatchUp(clone, height, bs, cfg.ignoreSpot);
    hide NodeOk, TrueState, TrueBlocks, TrueListener, TrueSnaps, CatchUp, UpdatedAll, FromNode, Validate, Commit,
         InitLoop, Accounted, ToSnapshots;
    var r := Reconcile(cfg, l, Some(clone), snaps, height, bs);
    if c.Reached? && c.state.core.height == height {
      NoDivergence(n, loads, c.state, snaps, cfg.ignoreSpot);
      CommitTrue(cfg, n, loads, l, c.state, snaps, c.rest);
      var u := UpdatedAll(FromNode(snaps, height, c.state.core.time), c.rest, cfg.ignoreSpot);
      assert r.l == l || (u.ok && r.l == Commit(l, u.state, true));
    } else {
      AuditSkipped(cfg, l, clone, snaps, height, bs);
    }
  }

  lemma AuditSkipped(cfg: Config, l: Listener, clone: State, snaps: map<string, Snapshot>, height: nat, bs: seq<Block>)
    requires QueuesAccounted(l)
    requires var c := CatchUp(clone, height, bs, cfg.ignoreSpot); !c.Reached? || c.state.core.height != height
    ensures Reconcile(cfg, l, Some(clone), snaps, height, bs).l == l
  {
    CatchUpReaches(clone, height, bs, cfg.ignoreSpot);
    hide CatchUp, UpdatedAll, FromNode, Validate, InitLoop;
  }

  lemma TrueListenerMore(n: Node, loads: set<nat>, more: set<nat>, l: Listener, ignoreSpot: bool)
    requires TrueListener(n, loads, l, ignoreSpot) && loads <= more
    ensures TrueListener(n, more, l, ignoreSpot)
  {
    hide At, SameBooks, CacheAgrees, ShowsBooks, TrueQueues, TrueBlocks;
  }

  lemma FinishTrue(cfg: Config, n: Node, loads: set<nat>, s: Sys, snaps: map<string, Snapshot>, height: nat)
    requires NodeOk(n, cfg.ignoreSpot) && s.task.Running? && Inv(cfg, s) && QueuesAccounted(s.l)
    requires TrueListener(n, loads, s.l, cfg.ignoreSpot) && TrueLive(n, loads, s.task.clone, cfg.ignoreSpot)
    requires TrueSnaps(n, snaps, height, cfg.ignoreSpot)
    ensures var l := Finish(cfg, s.l, s.task.epoch, s.task.clone, snaps, height).l;
            && TrueListener(n, loads + {height}, l, cfg.ignoreSpot)
            && (s.l.live.Some? || l.live.None? ==> TrueListener(n, loads, l, cfg.ignoreSpot))
  {
    hide NodeOk, TrueState, TrueSnaps, TrueOut, TrueQueues, TrueBlocks, Reconcile, InitLoop, FromNode, CacheOk,
         Published, Accounted,
         QueueOk, Replay;
    var l, all := TakeCache(s.l), loads + {height};
    TrueListenerMore(n, loads, all, s.l, cfg.ignoreSpot);
    if s.task.epoch == s.l.epoch {
      if s.task.clone.None? {
        FinishInit(cfg, s.l, s.task.epoch, snaps, height);
        FromNodeTrue(n, all, snaps, height, 0, cfg.ignoreSpot);
        InitLoopTrue(cfg, n, all, l, FromNode(snaps, height, 0));
        InitLoopOut(cfg, l, FromNode(snaps, height, 0));
      } else {
        assert TrueListener(n, loads, l, cfg.ignoreSpot);
        ReconcileTrue(cfg, n, loads, l, s.task.clone.value, snaps, height, s.l.cache.value);
        TrueListenerMore(n, loads, all, Finish(cfg, s.l, s.task.epoch, s.task.clone, snaps, height).l, cfg.ignoreSpot);
      }
    }
  }

  /** Loading publishes nothing. */
  lemma {:induction false} InitLoopOut(cfg: Config, l: Listener, s: State)
    requires QueuesAccounted(l) && l.live.None?
    ensures var r := InitLoop(cfg, l, s); r.out == l.out && r.cache == l.cache
    decreases |l.statuses.items| + |l.diffs.items|
  {
    hide PopPair, Updated, Accounted;
    PopShrinks(l.statuses, l.diffs);
    InitLoopStep(cfg, l, s);
    var p := PopPair(l.statuses, l.diffs);
    if p.pair.Some? {
      var u := Updated(s, Block(p.pair.value.0, p.pair.value.1), cfg.ignoreSpot);
      if u.ok {
        InitLoopOut(cfg, l.(statuses := p.left, diffs := p.right), u.state);
      }
    }
  }

  // ----- times

  lemma NodeTime(n: Node, h: nat, ignoreSpot: bool)
    requires NodeOk(n, ignoreSpot) && n.start.height < h && Covers(n, h)
    ensures At(n, h, ignoreSpot).time == n.chain[h - n.start.height - 1].statuses.time
  {
    hide NodeOk, Replay, LegalReplay, Good;
    var k := h - n.start.height;
    PrefixReplays(n, k, ignoreSpot);
    ReplayHeights(n.start, n.chain[..k], ignoreSpot);
    assert n.chain[..k][k - 1] == n.chain[k - 1];
  }

  /** Loading gives time 0, unless a queued block has been applied on top: then the node's time. */
  lemma LoadTimed(cfg: Config, n: Node, l: Listener, snaps: map<string, Snapshot>, height: nat)
    requires NodeOk(n, cfg.ignoreSpot) && TrueQueues(n, l.statuses, l.diffs) && QueuesAccounted(l) && l.live.None?
    requires Covers(n, height)
    ensures TimedLive(n, {height}, InitLoop(cfg, l, FromNode(snaps, height, 0)).live, cfg.ignoreSpot)
  {
    hide NodeOk, At, InitLoop, FromNode, Accounted;
    var s := FromNode(snaps, height, 0);
    FromNodeHeader(snaps, height, 0);
    LoadTime(cfg, l, s);
    var r := InitLoop(cfg, l, s);
    if r.live.Some? && r.live.value.core.height > height {
      var h, t := r.live.value.core.height, r.live.value.core.time;
      var i :| 0 <= i < |l.statuses.items| && l.statuses.items[i].height == h && l.statuses.items[i].time == t;
      assert TrueStatuses(n, l.statuses.items[i]);
      NodeTime(n, h, cfg.ignoreSpot);
    }
  }

  lemma AdvancedTimed(cfg: Config, n: Node, loads: set<nat>, last: set<nat>, l: Listener, b: Block)
    requires NodeOk(n, cfg.ignoreSpot) && TrueListener(n, loads, l, cfg.ignoreSpot) && l.live.Some? && TrueBlock(n, b)
    requires TimedLive(n, last, l.live, cfg.ignoreSpot)
    ensures var r := Advanced(cfg, l, b); r.ok ==> TimedLive(n, last, r.l.live, cfg.ignoreSpot)
  {
    var r := Advanced(cfg, l, b);
    var c := l.live.value.core;
    if r.ok && b.statuses.height > c.height {
      AcceptedIsNext(c, b, cfg.ignoreSpot);
      hide NodeOk, At, ApplyBlock, TrueBlock, TrueQueues, TrueBlocks, TrueOut, CacheAgrees, SameBooks;
      TrueStep(n, loads, c, b, cfg.ignoreSpot);
    }
  }

  lemma ReceiveTimed(cfg: Config, n: Node, loads: set<nat>, last: set<nat>, l: Listener, r: Record)
    requires NodeOk(n, cfg.ignoreSpot) && TrueListener(n, loads, l, cfg.ignoreSpot) && TrueRecord(n, r)
    requires QueuesAccounted(l)
    requires TimedLive(n, last, l.live, cfg.ignoreSpot)
    ensures var q := Receive(cfg, l, r); q.ok ==> TimedLive(n, last, q.l.live, cfg.ignoreSpot)
  {
    hide NodeOk, TrueLive, TrueBlocks, TrueOut, TrueRecord, Advanced, PopPair, TrueTime, Push;
    EnqueueTrue(cfg, n, loads, l, r);
    EnqueueAccounted(cfg, l, r);
    var e := Enqueue(cfg, l, r);
    if e.ok && e.l.live.Some? {
      PopPairTrue(n, e.l.statuses, e.l.diffs);
      var p := PopPair(e.l.statuses, e.l.diffs);
      if p.pair.Some? {
        AdvancedTimed(cfg, n, loads, last, e.l.(statuses := p.left, diffs := p.right),
                      Block(p.pair.value.0, p.pair.value.1));
      }
    }
  }

  lemma {:induction false} ReceiveAllTimed(cfg: Config, n: Node, loads: set<nat>, last: set<nat>, l: Listener,
                                           rs: seq<Record>)
    requires NodeOk(n, cfg.ignoreSpot) && TrueListener(n, loads, l, cfg.ignoreSpot) && QueuesAccounted(l)
    requires TimedLive(n, last, l.live, cfg.ignoreSpot) && forall i :: 0 <= i < |rs| ==> TrueRecord(n, rs[i])
    ensures var q := ReceiveAll(cfg, l, rs); q.ok ==> TimedLive(n, last, q.l.live, cfg.ignoreSpot)
    decreases |rs|
  {
    hide NodeOk, TrueListener, TimedLive, TrueRecord, Receive, Accounted;
    if rs != [] {
      ReceiveTrue(cfg, n, loads, l, rs[0]);
      ReceiveTimed(cfg, n, loads, last, l, rs[0]);
      ReceiveAccounted(cfg, l, rs[0]);
      var q := Receive(cfg, l, rs[0]);
      if q.ok {
        ReceiveAllTimed(cfg, n, loads, last, q.l, rs[1..]);
      }
    }
  }

  lemma TurnTimed(cfg: Config, n: Node, loads: set<nat>, last: set<nat>, l: Listener, rs: seq<Record>)
    requires NodeOk(n, cfg.ignoreSpot) && TrueListener(n, loads, l, cfg.ignoreSpot) && QueuesAccounted(l)
    requires TimedLive(n, last, l.live, cfg.ignoreSpot) && forall i :: 0 <= i < |rs| ==> TrueRecord(n, rs[i])
    ensures TimedLive(n, last, Turn(cfg, l, rs).live, cfg.ignoreSpot)
  {
    hide NodeOk, TrueListener, TrueRecord, ReceiveAll, Accounted, TrueTime, Refreshed;
    ReceiveAllTimed(cfg, n, loads, last, l, rs);
    var q := ReceiveAll(cfg, l, rs);
    if q.ok && q.l.live.Some? {
      SnappedCore(q.l.live.value);
    }
  }

  lemma FinishTimed(cfg: Config, n: Node, loads: set<nat>, last: set<nat>, s: Sys, snaps: map<string, Snapshot>,
                    height: nat)
    requires NodeOk(n, cfg.ignoreSpot) && s.task.Running? && Inv(cfg, s) && QueuesAccounted(s.l)
    requires TrueListener(n, loads, s.l, cfg.ignoreSpot) && TrueLive(n, loads, s.task.clone, cfg.ignoreSpot)
    requires TrueSnaps(n, snaps, height, cfg.ignoreSpot) && TimedLive(n, last, s.l.live, cfg.ignoreSpot)
    ensures var l := Finish(cfg, s.l, s.task.epoch, s.task.clone, snaps, height).l;
            TimedLive(n, if s.l.live.None? then {height} else last, l.live, cfg.ignoreSpot)
  {
    hide NodeOk, TrueState, TrueOut, TrueQueues, TrueBlocks, Finish, InitLoop, FromNode, CacheOk, Published, Accounted,
         QueueOk, Replay,
         TrueTime, Consistent, CatchUp;
    if s.task.epoch != s.l.epoch {
      StaleFinish(cfg, s.l, s.task.epoch, s.task.clone, snaps, height);
    } else if s.l.live.None? {
      FinishInit(cfg, s.l, s.task.epoch, snaps, height);
      LoadTimed(cfg, n, TakeCache(s.l), snaps, height);
    } else {
      VerdictTrue(cfg, n, loads, s, snaps, height);
      CommitsAtLiveHeight(cfg, s, snaps, height);
    }
  }

  lemma VerdictTrue(cfg: Config, n: Node, loads: set<nat>, s: Sys, snaps: map<string, Snapshot>, height: nat)
    requires NodeOk(n, cfg.ignoreSpot) && TrueSnaps(n, snaps, height, cfg.ignoreSpot)
    requires s.task.Running? && s.task.clone.Some? && s.l.cache.Some?
    requires TrueState(n, loads, s.task.clone.value, cfg.ignoreSpot) && TrueBlocks(n, s.l.cache.value)
    ensures AuditVerdict(cfg, s, snaps, height) != Some(Diverged)
  {
    hide NodeOk, TrueState, TrueSnaps, TrueBlocks, CatchUp, Validate;
    CatchUpTrue(n, loads, s.task.clone.value, height, s.l.cache.value, cfg.ignoreSpot);
    var c := CatchUp(s.task.clone.value, height, s.l.cache.value, cfg.ignoreSpot);
    if c.Reached? && c.state.core.height == height {
      NoDivergence(n, loads, c.state, snaps, cfg.ignoreSpot);
    }
  }

  // ----- every step, every run

  lemma LoadsGrow(loads: Loads, h: nat)
    ensures AllLoads(loads + [h]) == AllLoads(loads) + {h} && LastLoad(loads + [h]) == {h}
    ensures LastLoad(loads) <= AllLoads(loads)
  {
  }

  lemma FinishSysTrue(cfg: Config, n: Node, loads: Loads, s: Sys, e: Event)
    requires NodeOk(n, cfg.ignoreSpot) && Inv(cfg, s) && TrueSys(n, loads, s, cfg.ignoreSpot)
    requires e.FinishEv? && Enabled(s, e) && QueuesAccounted(s.l) && TrueSnaps(n, e.snaps, e.height, cfg.ignoreSpot)
    ensures TrueSys(n, NextLoads(cfg, s, e, loads), Next(cfg, s, e), cfg.ignoreSpot)
  {
    hide NodeOk, Inv, TrueListener, TrueLive, TrueSnaps, Finish, Accounted, TrueTime, AllLoads, LastLoad;
    LoadsGrow(loads, e.height);
    FinishTrue(cfg, n, AllLoads(loads), s, e.snaps, e.height);
    FinishTimed(cfg, n, AllLoads(loads), LastLoad(loads), s, e.snaps, e.height);
  }

  lemma StepTrue(cfg: Config, n: Node, loads: Loads, s: Sys, e: Event)
    requires NodeOk(n, cfg.ignoreSpot) && Inv(cfg, s) && TrueSys(n, loads, s, cfg.ignoreSpot)
    requires Enabled(s, e) && QueuesAccounted(s.l) && TrueEvent(n, e, cfg.ignoreSpot)
    ensures TrueSys(n, NextLoads(cfg, s, e, loads), Next(cfg, s, e), cfg.ignoreSpot)
  {
    hide NodeOk, Inv, TrueState, TrueSnaps, TrueQueues, TrueRecord, Turn, Finish, Accounted, AllLoads, LastLoad,
         TrueTime;
    var all, last := AllLoads(loads), LastLoad(loads);
    OutTrue(n, all, s.l, cfg.ignoreSpot);
    if e.TurnEv? {
      TurnTrue(cfg, n, all, s.l, e.records);
      TurnTimed(cfg, n, all, last, s.l, e.records);
    } else if e.FenceEv? || e.CrashEv? || (e.JoinEv? && !s.task.ok) {
      FenceTrue(n, all, s.l, cfg.ignoreSpot);
    } else if e.FinishEv? {
      FinishSysTrue(cfg, n, loads, s, e);
    } else if e.ReadEv? && s.l.live.Some? {
      ViewsTrue(n, all, s.l.live.value, cfg.ignoreSpot);
      SnappedCore(s.l.live.value);
    }
  }

  ghost predicate TrueEvents(n: Node, es: seq<Event>, ignoreSpot: bool) {
    forall i :: 0 <= i < |es| ==> TrueEvent(n, es[i], ignoreSpot)
  }

  /**
   In every state reached while the node tells the truth: the live books are the node's books at
   the live height and so is the live time, save that it is 0 while no block has been applied since
   the book was loaded; every view broadcast shows the node's books at its height, and every L4
   update is the node's block.
   */
  lemma {:induction false} RunTrue(cfg: Config, n: Node, loads: Loads, s: Sys, es: seq<Event>)
    requires NodeOk(n, cfg.ignoreSpot) && Inv(cfg, s) && TrueSys(n, loads, s, cfg.ignoreSpot)
    requires TrueEvents(n, es, cfg.ignoreSpot)
    ensures var r := RunEvents(cfg, s, es); r.Some? ==> TrueSys(n, RunLoads(cfg, s, es, loads), r.value, cfg.ignoreSpot)
    decreases |es|
  {
    hide NodeOk, Inv, Next, TrueSys, TrueEvent, Accounted, NextLoads;
    if es != [] && Enabled(s, es[0]) {
      StepKeeps(cfg, s, es[0]);
      StepTrue(cfg, n, loads, s, es[0]);
      RunTrue(cfg, n, NextLoads(cfg, s, es[0], loads), Next(cfg, s, es[0]), es[1..]);
    }
  }

  lemma StartTrue(n: Node, ignoreSpot: bool)
    ensures TrueSys(n, [], INIT, ignoreSpot)
  {
  }

  /** In particular from the start. */
  lemma RunFromStart(cfg: Config, n: Node, es: seq<Event>, r: Sys)
    requires NodeOk(n, cfg.ignoreSpot) && TrueEvents(n, es, cfg.ignoreSpot) && FromStart(cfg, es) == Some(r)
    ensures Inv(cfg, r) && Inv(cfg, INIT) && TrueSys(n, RunLoads(cfg, INIT, es, []), r, cfg.ignoreSpot)
    ensures r.l.live.Some? ==> SameBooks(r.l.live.value.core.books,
                                         At(n, r.l.live.value.core.height, cfg.ignoreSpot).books, cfg.ignoreSpot)
  {
    InitInv(cfg);
    hide NodeOk, Inv, RunEvents, TrueEvents, At, SameBooks, TrueQueues, TrueOut, CacheAgrees, RunLoads;
    StartTrue(n, cfg.ignoreSpot);
    RunTrue(cfg, n, [], INIT, es);
    RunSafe(cfg, INIT, es);
  }

  /** The rest of the remembered blocks always replays on the rebuilt books. */
  lemma RestReplays(cfg: Config, n: Node, loads: set<nat>, s: State, snaps: map<string, Snapshot>, rest: seq<Block>)
    requires NodeOk(n, cfg.ignoreSpot) && TrueState(n, loads, s, cfg.ignoreSpot) && TrueBlocks(n, rest)
    requires TrueSnaps(n, snaps, s.core.height, cfg.ignoreSpot) && Replay(s.core, rest, cfg.ignoreSpot).Some?
    ensures UpdatedAll(FromNode(snaps, s.core.height, s.core.time), rest, cfg.ignoreSpot).ok
  {
    hide NodeOk, TrueCore, CacheAgrees, TrueBlocks, TrueSnaps, UpdatedAll, FromNode, Replay;
    TimeTrue(n, loads, s, cfg.ignoreSpot);
    FromNodeTrue(n, loads, snaps, s.core.height, s.core.time, cfg.ignoreSpot);
    FromNodeHeader(snaps, s.core.height, s.core.time);
    var m := FromNode(snaps, s.core.height, s.core.time);
    ReplayHeights(s.core, rest, cfg.ignoreSpot);
    TrueReplay(n, loads, m.core, rest, cfg.ignoreSpot);
    UpdatedAllIsReplay(m, rest, cfg.ignoreSpot);
  }

  /**
   While the node tells the truth an audit of a live book never fails, never announces a gap,
   and leaves every book that is not ignored, the height included, as it was.
   */
  lemma AuditsNeverDiverge(cfg: Config, n: Node, loads: Loads, s: Sys, snaps: map<string, Snapshot>, height: nat)
    requires NodeOk(n, cfg.ignoreSpot) && Inv(cfg, s) && TrueSys(n, loads, s, cfg.ignoreSpot) && QueuesAccounted(s.l)
    requires s.task.Running? && s.task.epoch == s.l.epoch && s.l.live.Some?
    requires TrueSnaps(n, snaps, height, cfg.ignoreSpot)
    ensures var r := Finish(cfg, s.l, s.task.epoch, s.task.clone, snaps, height);
            && r.ok && s.l.out <= r.l.out && NoGap(News(s.l, r.l))
            && r.l.live.Some? && r.l.live.value.core.height == s.l.live.value.core.height
            && SameBooks(r.l.live.value.core.books, s.l.live.value.core.books, cfg.ignoreSpot)
  {
    hide NodeOk, TrueCore, CacheAgrees, TrueSnaps, TrueOut, TrueQueues, TrueBlocks, CatchUp, SplitAt, UpdatedAll,
         FromNode,
         Validate, Snapped, SameBooks, CacheOk, Published, Accounted, QueueOk, Replay;
    var all := AllLoads(loads);
    FinishTrue(cfg, n, all, s, snaps, height);
    CommitsAtLiveHeight(cfg, s, snaps, height);
    var r := Finish(cfg, s.l, s.task.epoch, s.task.clone, snaps, height);
    TrueCoresSame(n, all, r.l.live.value.core, s.l.live.value.core, cfg.ignoreSpot);
    var live, clone, blocks := s.l.live.value.core, s.task.clone.value, s.l.cache.value;
    CatchUpSplits(clone, height, blocks, cfg.ignoreSpot, live);
    CatchUpTrue(n, all, clone, height, blocks, cfg.ignoreSpot);
    var c := CatchUp(clone, height, blocks, cfg.ignoreSpot);
    if c.Reached? && c.state.core.height == height {
      NoDivergence(n, all, c.state, snaps, cfg.ignoreSpot);
      RestLeadsOn(clone.core, c.state.core, blocks, c.rest, cfg.ignoreSpot, live);
      RestReplays(cfg, n, all, c.state, snaps, c.rest);
    }
  }

  // ----- subscribers

  lemma {:induction false} L4sTrue(n: Node, loads: set<nat>, ms: seq<Msg>, ignoreSpot: bool)
    requires NodeOk(n, ignoreSpot) && TrueOut(n, loads, ms, ignoreSpot)
    ensures TrueBlocks(n, L4s(ms))
    decreases |ms|
  {
    if ms != [] {
      hide NodeOk, TrueMsg;
      L4sTrue(n, loads, ms[1..], ignoreSpot);
      if ms[0].L4? {
        L4True(n, loads, ms[0], ignoreSpot);
      }
    }
  }

  lemma L4True(n: Node, loads: set<nat>, m: Msg, ignoreSpot: bool)
    requires NodeOk(n, ignoreSpot) && m.L4? && TrueMsg(n, loads, m, ignoreSpot)
    ensures TrueBlock(n, m.block)
  {
    hide Good, Replay, LegalReplay;
  }

  /**
   A subscriber that takes the live books at one point of such a run and applies the L4 updates
   broadcast since, without a gap in between, holds the live books, audits notwithstanding.
   */
  lemma SubscriberHoldsLiveBooks(cfg: Config, n: Node, loads: Loads, s: Sys, es: seq<Event>, r: Sys)
    requires NodeOk(n, cfg.ignoreSpot) && Inv(cfg, s) && TrueSys(n, loads, s, cfg.ignoreSpot)
    requires TrueEvents(n, es, cfg.ignoreSpot) && RunEvents(cfg, s, es) == Some(r)
    requires s.l.live.Some? && s.l.out <= r.l.out && NoGap(News(s.l, r.l))
    ensures r.l.live.Some?
    ensures var c := Replay(s.l.live.value.core, L4s(News(s.l, r.l)), cfg.ignoreSpot);
            && c.Some? && c.value.height == r.l.live.value.core.height
            && SameBooks(c.value.books, r.l.live.value.core.books, cfg.ignoreSpot)
  {
    hide NodeOk, Inv, RunEvents, TrueCore, TrueQueues, TrueBlock, TrueMsg, CacheAgrees, SameBooks, Replay, NoGap, L4s,
         RunLoads, AllLoads;
    RunConsecutive(cfg, s, es);
    RunTrue(cfg, n, loads, s, es);
    var all := AllLoads(RunLoads(cfg, s, es, loads));
    LoadsKept(cfg, n, loads, s, es);
    TrueMore(n, AllLoads(loads), all, s.l.live.value, cfg.ignoreSpot);
    var ms := News(s.l, r.l);
    assert TrueOut(n, all, ms, cfg.ignoreSpot);
    L4sTrue(n, all, ms, cfg.ignoreSpot);
    TrueReplay(n, all, s.l.live.value.core, L4s(ms), cfg.ignoreSpot);
    TrueCoresSame(n, all, Replay(s.l.live.value.core, L4s(ms), cfg.ignoreSpot).value, r.l.live.value.core,
                  cfg.ignoreSpot);
  }

  lemma {:induction false} LoadsKept(cfg: Config, n: Node, loads: Loads, s: Sys, es: seq<Event>)
    requires Inv(cfg, s)
    ensures AllLoads(loads) <= AllLoads(RunLoads(cfg, s, es, loads))
    decreases |es|
  {
    if es != [] && Enabled(s, es[0]) {
      hide Inv, Next;
      StepKeeps(cfg, s, es[0]);
      LoadsKept(cfg, n, NextLoads(cfg, s, es[0], loads), Next(cfg, s, es[0]), es[1..]);
    }
  }
}
