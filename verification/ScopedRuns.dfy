/**
 Whole runs in scope: loads from the filtered snapshot, audits against it, and every other event.
 While the unrestricted listener succeeds and the coins in scope alone lead its audits to the same
 verdict, the scoped listener goes through exactly the projections of its states.
 */
module ScopedRuns {
  import opened Prelude
  import opened Snapshots
  import opened Blocks
  import opened Replays
  import opened Scopes
  import opened Queues
  import opened BookState
  import opened Listeners
  import opened Protocol
  import opened ScopedListener

  // ----- loading from the filtered snapshot

  lemma TakeCacheScoped(l: Listener, scope: CoinScope)
    ensures TakeCache(Scoped(l, scope)) == Scoped(TakeCache(l), scope)
  {
    hide ScopedState, NarrowQueue, ScopedOut, NarrowedAll;
  }

  /** A load that installs a book from the node's snapshot installs its projection from the filtered one. */
  lemma FinishLoadScoped(cfg: Config, l: Listener, snaps: map<string, Snapshot>, height: nat, scope: CoinScope)
    requires QueuesAccounted(l) && l.live.None? && ClearLoad(cfg, TakeCache(l), FromNode(snaps, height, 0))
    requires Finish(cfg, l, l.epoch, None, snaps, height).l.live.Some?
    ensures QueuesAccounted(Scoped(l, scope))
    ensures Finish(cfg, Scoped(l, scope), l.epoch, None, InScopeSnaps(snaps, scope), height) ==
            LReply(Scoped(Finish(cfg, l, l.epoch, None, snaps, height).l, scope), true)
  {
    hide Finish, InitLoop, ClearLoad, FromNode, ScopedState, InScopeSnaps, Accounted;
    FinishInit(cfg, l, l.epoch, snaps, height);
    ScopedAccounted(l, scope);
    FinishInit(cfg, Scoped(l, scope), l.epoch, InScopeSnaps(snaps, scope), height);
    TakeCacheScoped(l, scope);
    FromNodeScoped(snaps, height, 0, scope);
    LoadScoped(cfg, TakeCache(l), FromNode(snaps, height, 0), scope);
  }

  /** The same with the first chunk of records that follows. */
  lemma LoadThenTurnScoped(cfg: Config, l: Listener, snaps: map<string, Snapshot>, height: nat, rs: seq<Record>,
                           scope: CoinScope)
    requires QueuesAccounted(l) && l.live.None? && ClearLoad(cfg, TakeCache(l), FromNode(snaps, height, 0))
    requires var r := Finish(cfg, l, l.epoch, None, snaps, height).l;
             r.live.Some? && QueuesAccounted(r) && ClearRecords(cfg, r, rs) && ReceiveAll(cfg, r, rs).ok
    ensures QueuesAccounted(Scoped(l, scope))
    ensures var r := Finish(cfg, l, l.epoch, None, snaps, height).l;
            var q := Finish(cfg, Scoped(l, scope), l.epoch, None, InScopeSnaps(snaps, scope), height).l;
            QueuesAccounted(q) && Turn(cfg, q, ScopedRecords(rs, scope)) == Scoped(Turn(cfg, r, rs), scope)
  {
    hide Finish, ClearLoad, ClearRecords, ReceiveAll, Turn, Scoped, FromNode, Accounted;
    FinishLoadScoped(cfg, l, snaps, height, scope);
    TurnScoped(cfg, Finish(cfg, l, l.epoch, None, snaps, height).l, rs, scope);
  }

  // ----- audits

  lemma SnapshotsRestrict(books: Books, scope: CoinScope)
    ensures ToSnapshots(Restrict(books, scope)) == InScopeSnaps(ToSnapshots(books), scope)
  {
    hide CoinScope.Contains;
  }

  /** A new coin in scope. */
  ghost predicate HasExtraIn(have: map<string, Snapshot>, want: map<string, Snapshot>, scope: CoinScope,
                             ignoreSpot: bool)
  {
    exists c :: c in want && !Ignored(c, ignoreSpot) && c !in have && scope.Contains(c)
  }

  /**
   The verdict on the coins in scope: equal if all were, new empty books only if they are in
   scope, a divergence only if it is in scope.
   */
  lemma VerdictScoped(have: map<string, Snapshot>, want: map<string, Snapshot>, scope: CoinScope, ignoreSpot: bool)
    ensures var v, w := Validate(have, want, ignoreSpot),
              Validate(InScopeSnaps(have, scope), InScopeSnaps(want, scope), ignoreSpot);
            && (v == Equal ==> w == Equal)
            && (v == EmptyBooksAdded ==>
                  w == if HasExtraIn(have, want, scope, ignoreSpot) then EmptyBooksAdded else Equal)
            && (w == Diverged ==> v == Diverged)
  {
    hide CoinScope.Contains, Ignored;
    var h, k := InScopeSnaps(have, scope), InScopeSnaps(want, scope);
    if Consistent(have, want, ignoreSpot) {
      assert Consistent(h, k, ignoreSpot);
      if HasExtra(h, k, ignoreSpot) {
        var c :| c in k && !Ignored(c, ignoreSpot) && c !in h;
        assert c in want && c !in have;
      }
      if HasExtraIn(have, want, scope, ignoreSpot) {
        var c :| c in want && !Ignored(c, ignoreSpot) && c !in have && scope.Contains(c);
        assert c in k && c !in h;
      }
    }
  }

  ghost predicate ClearBlocks(blocks: seq<Block>) {
    forall i :: 0 <= i < |blocks| ==> OneCoinPerOid(blocks[i])
  }

  lemma NarrowedTail(blocks: seq<Block>, scope: CoinScope)
    requires blocks != []
    ensures NarrowedAll(blocks, scope) != [] && NarrowedAll(blocks, scope)[0] == NarrowedBlock(blocks[0], scope)
    ensures NarrowedAll(blocks, scope)[1..] == NarrowedAll(blocks[1..], scope)
  {
    hide NarrowedBlock;
  }

  function ScopedCaught(c: Caught, scope: CoinScope): Caught {
    match c
    case Reached(s, rest) => Reached(ScopedState(s, scope), NarrowedAll(rest, scope))
    case _ => c
  }

  lemma {:induction false} CatchUpScoped(s: State, height: nat, blocks: seq<Block>, scope: CoinScope, ignoreSpot: bool)
    requires ClearBlocks(blocks) && !CatchUp(s, height, blocks, ignoreSpot).Broken?
    ensures CatchUp(ScopedState(s, scope), height, NarrowedAll(blocks, scope), ignoreSpot) ==
            ScopedCaught(CatchUp(s, height, blocks, ignoreSpot), scope)
    ensures var c := CatchUp(s, height, blocks, ignoreSpot); c.Reached? ==>
              ClearBlocks(c.rest) && c.state.core.height >= height
    decreases |blocks|
  {
    hide Updated, OneCoinPerOid, NarrowedAll, NarrowedBlock;
    if s.core.height < height && blocks != [] {
      NarrowedTail(blocks, scope);
      UpdatedScoped(s, blocks[0], scope, ignoreSpot);
      assert forall i :: 0 <= i < |blocks[1..]| ==> blocks[1..][i] in blocks;
      CatchUpScoped(Updated(s, blocks[0], ignoreSpot).state, height, blocks[1..], scope, ignoreSpot);
    } else if blocks == [] {
      NarrowedNone(scope);
    }
  }

  lemma NarrowedNone(scope: CoinScope)
    ensures NarrowedAll([], scope) == []
  {
  }

  lemma {:induction false} UpdatedAllScoped(s: State, blocks: seq<Block>, scope: CoinScope, ignoreSpot: bool)
    requires ClearBlocks(blocks) && UpdatedAll(s, blocks, ignoreSpot).ok
    ensures UpdatedAll(ScopedState(s, scope), NarrowedAll(blocks, scope), ignoreSpot) ==
            StateReply(ScopedState(UpdatedAll(s, blocks, ignoreSpot).state, scope), true)
    decreases |blocks|
  {
    hide Updated, OneCoinPerOid, NarrowedAll, NarrowedBlock, ScopedState;
    if blocks != [] {
      NarrowedTail(blocks, scope);
      UpdatedScoped(s, blocks[0], scope, ignoreSpot);
      assert forall i :: 0 <= i < |blocks[1..]| ==> blocks[1..][i] in blocks;
      UpdatedAllScoped(Updated(s, blocks[0], ignoreSpot).state, blocks[1..], scope, ignoreSpot);
    } else {
      NarrowedNone(scope);
    }
  }

  lemma CommitScoped(l: Listener, s: State, benign: bool, scope: CoinScope)
    ensures Commit(Scoped(l, scope), ScopedState(s, scope), benign) == Scoped(Commit(l, s, benign), scope)
  {
    hide PublishViews, ScopedState, NarrowQueue, NarrowedAll;
    var l1 := l.(live := Some(s));
    PublishScoped(l1, scope);
    OutAppend(l1.out, Gap, scope);
  }

  // ----- the system

  function ScopedTask(t: Task, scope: CoinScope): Task {
    match t
    case Running(epoch, clone) => Running(epoch, if clone.Some? then Some(ScopedState(clone.value, scope)) else None)
    case _ => t
  }

  function ScopedSys(s: Sys, scope: CoinScope): Sys {
    Sys(Scoped(s.l, scope), ScopedTask(s.task, scope))
  }

  function ScopedEvent(e: Event, scope: CoinScope): Event {
    match e
    case TurnEv(rs) => TurnEv(ScopedRecords(rs, scope))
    case FinishEv(snaps, height) => FinishEv(InScopeSnaps(snaps, scope), height)
    case _ => e
  }

  function ScopedEvents(es: seq<Event>, scope: CoinScope): (r: seq<Event>)
    ensures |r| == |es| && forall i {:trigger r[i]} :: 0 <= i < |es| ==> r[i] == ScopedEvent(es[i], scope)
  {
    seq(|es|, i requires 0 <= i < |es| => ScopedEvent(es[i], scope))
  }

  /** The coins in scope alone lead the audit to the same verdict. */
  ghost predicate SameVerdict(cfg: Config, s: Sys, snaps: map<string, Snapshot>, height: nat, scope: CoinScope)
    requires s.task.Running? && s.task.clone.Some? && s.l.cache.Some?
  {
    AuditVerdict(cfg, ScopedSys(s, scope), InScopeSnaps(snaps, scope), height) == AuditVerdict(cfg, s, snaps, height)
  }

  /** An audit in scope concludes at the same height, on the restricted books. */
  lemma AuditVerdictScoped(cfg: Config, s: Sys, snaps: map<string, Snapshot>, height: nat, scope: CoinScope)
    requires s.task.Running? && s.task.clone.Some? && s.l.cache.Some? && ClearBlocks(s.l.cache.value)
    requires !CatchUp(s.task.clone.value, height, s.l.cache.value, cfg.ignoreSpot).Broken?
    ensures var v, w := AuditVerdict(cfg, s, snaps, height),
              AuditVerdict(cfg, ScopedSys(s, scope), InScopeSnaps(snaps, scope), height);
            && (v.None? <==> w.None?)
            && (v == Some(Equal) ==> w == Some(Equal))
            && (v == Some(EmptyBooksAdded) ==> w in {Some(EmptyBooksAdded), Some(Equal)})
  {
    hide CatchUp, Validate, ClearBlocks, NarrowedAll;
    CatchUpScoped(s.task.clone.value, height, s.l.cache.value, scope, cfg.ignoreSpot);
    var c := CatchUp(s.task.clone.value, height, s.l.cache.value, cfg.ignoreSpot);
    if c.Reached? {
      SnapshotsRestrict(c.state.core.books, scope);
      VerdictScoped(ToSnapshots(c.state.core.books), snaps, scope, cfg.ignoreSpot);
    }
  }

  lemma RebuildScoped(snaps: map<string, Snapshot>, height: nat, time: nat, rest: seq<Block>, scope: CoinScope,
                      ignoreSpot: bool)
    requires ClearBlocks(rest) && UpdatedAll(FromNode(snaps, height, time), rest, ignoreSpot).ok
    ensures UpdatedAll(FromNode(InScopeSnaps(snaps, scope), height, time), NarrowedAll(rest, scope), ignoreSpot) ==
            StateReply(ScopedState(UpdatedAll(FromNode(snaps, height, time), rest, ignoreSpot).state, scope), true)
  {
    hide FromNode, ScopedState, UpdatedAll, NarrowedAll, ClearBlocks, InScopeSnaps;
    FromNodeScoped(snaps, height, time, scope);
    UpdatedAllScoped(FromNode(snaps, height, time), rest, scope, ignoreSpot);
  }

  /** An audit against the filtered snapshot does the projection of what the unrestricted one does. */
  lemma AuditScoped(cfg: Config, s: Sys, snaps: map<string, Snapshot>, height: nat, scope: CoinScope)
    requires QueuesAccounted(s.l) && s.task.Running? && s.task.epoch == s.l.epoch && s.task.clone.Some?
    requires s.l.cache.Some?
    requires ClearBlocks(s.l.cache.value) && SameVerdict(cfg, s, snaps, height, scope)
    requires Finish(cfg, s.l, s.task.epoch, s.task.clone, snaps, height).ok
    ensures QueuesAccounted(ScopedSys(s, scope).l)
    ensures var q := ScopedSys(s, scope);
            Finish(cfg, q.l, q.task.epoch, q.task.clone, InScopeSnaps(snaps, scope), height) ==
            LReply(Scoped(Finish(cfg, s.l, s.task.epoch, s.task.clone, snaps, height).l, scope), true)
  {
    hide CatchUp, Validate, ClearBlocks, NarrowedAll, UpdatedAll, FromNode, InScopeSnaps, Commit, ScopedOut,
         NarrowQueue, Accounted, TakeCache;
    ScopedAccounted(s.l, scope);
    TakeCacheScoped(s.l, scope);
    CatchUpScoped(s.task.clone.value, height, s.l.cache.value, scope, cfg.ignoreSpot);
    var c := CatchUp(s.task.clone.value, height, s.l.cache.value, cfg.ignoreSpot);
    if c.Reached? && c.state.core.height == height {
      var v := Validate(ToSnapshots(c.state.core.books), snaps, cfg.ignoreSpot);
      if v != Equal {
        var time := if v == EmptyBooksAdded then c.state.core.time else 0;
        RebuildScoped(snaps, height, time, c.rest, scope, cfg.ignoreSpot);
        var u := UpdatedAll(FromNode(snaps, height, time), c.rest, cfg.ignoreSpot);
        CommitScoped(TakeCache(s.l), u.state, v == EmptyBooksAdded, scope);
      }
    }
  }

  // ----- every step, every run

  ghost predicate ClearSys(s: Sys) {
    s.l.cache.Some? ==> ClearBlocks(s.l.cache.value)
  }

  /**
   The unrestricted listener succeeds: every record is taken, a load installs a book, an audit does
   not fail and reaches the verdict of the coins in scope. Events of an applied block name one coin
   per order.
   */
  ghost predicate ClearEvent(cfg: Config, s: Sys, e: Event, scope: CoinScope)
    requires QueuesAccounted(s.l) && Enabled(s, e)
  {
    match e
    case TurnEv(rs) => ClearRecords(cfg, s.l, rs) && ReceiveAll(cfg, s.l, rs).ok
    case FinishEv(snaps, height) =>
      s.task.epoch == s.l.epoch ==>
        && Next(cfg, s, e).task == Done(true)
        && (s.task.clone.None? ==>
              ClearLoad(cfg, TakeCache(s.l), FromNode(snaps, height, 0)) && Next(cfg, s, e).l.live.Some?)
        && (s.task.clone.Some? && s.l.cache.Some? ==> SameVerdict(cfg, s, snaps, height, scope))
    case _ => true
  }

  ghost predicate ClearRun(cfg: Config, s: Sys, es: seq<Event>, scope: CoinScope)
    requires Inv(cfg, s)
    decreases |es|
  {
    es != [] && Enabled(s, es[0]) ==>
      && (TaskEpoch(cfg, s); ClearEvent(cfg, s, es[0], scope))
      && (StepKeeps(cfg, s, es[0]); ClearRun(cfg, Next(cfg, s, es[0]), es[1..], scope))
  }

  lemma FenceScoped(l: Listener, scope: CoinScope)
    ensures Fence(Scoped(l, scope)) == Scoped(Fence(l), scope)
  {
    hide ScopedState, NarrowedAll;
    OutAppend(l.out, Gap, scope);
    hide ScopedOut;
    assert NarrowQueue(EmptyQueue(), StatusIn(scope)) == EmptyQueue<Status>();
    assert NarrowQueue(EmptyQueue(), DiffIn(scope)) == EmptyQueue<Diff>();
  }

  lemma BeginScoped(l: Listener, scope: CoinScope)
    ensures BeginCaching(Scoped(l, scope)) == Scoped(BeginCaching(l), scope)
    ensures ClearBlocks([])
  {
    hide ScopedState, NarrowQueue, ScopedOut;
    NarrowedNone(scope);
  }

  lemma ReadScoped(l: Listener, scope: CoinScope)
    ensures Read(Scoped(l, scope)) == Scoped(Read(l), scope)
  {
    hide NarrowQueue, ScopedOut, NarrowedAll, ScopedState, Refreshed;
    if l.live.Some? {
      RefreshedScoped(l.live.value, scope);
    }
  }

  lemma RememberClear(cfg: Config, l: Listener, b: Block)
    requires (l.cache.Some? ==> ClearBlocks(l.cache.value)) && OneCoinPerOid(b)
    ensures var l' := Remember(cfg, l, b); l'.cache.Some? ==> ClearBlocks(l'.cache.value)
  {
    hide OneCoinPerOid;
  }

  lemma ReceiveClear(cfg: Config, l: Listener, r: Record)
    requires QueuesAccounted(l) && ClearRecord(cfg, l, r) && (l.cache.Some? ==> ClearBlocks(l.cache.value))
    ensures var l' := Receive(cfg, l, r).l; l'.cache.Some? ==> ClearBlocks(l'.cache.value)
  {
    EnqueueAccounted(cfg, l, r);
    var e := Enqueue(cfg, l, r);
    EnqueueCache(cfg, l, r);
    hide Enqueue, PopPair, Updated, OneCoinPerOid, ClearBlocks, Remember, Accounted;
    if e.ok && e.l.live.Some? {
      var p := PopPair(e.l.statuses, e.l.diffs);
      if p.pair.Some? {
        var b := Block(p.pair.value.0, p.pair.value.1);
        var u := Updated(e.l.live.value, b, cfg.ignoreSpot);
        RememberClear(cfg, e.l.(statuses := p.left, diffs := p.right, live := Some(u.state)), b);
      }
    }
  }

  lemma EnqueueCache(cfg: Config, l: Listener, r: Record)
    ensures Enqueue(cfg, l, r).l.cache == l.cache
  {
    hide Push;
  }

  lemma {:induction false} ReceiveAllClear(cfg: Config, l: Listener, rs: seq<Record>)
    requires QueuesAccounted(l) && ClearRecords(cfg, l, rs) && (l.cache.Some? ==> ClearBlocks(l.cache.value))
    ensures var l' := ReceiveAll(cfg, l, rs).l; l'.cache.Some? ==> ClearBlocks(l'.cache.value)
    decreases |rs|
  {
    hide Receive, ClearRecord, ClearBlocks, Accounted;
    if rs != [] {
      ReceiveClear(cfg, l, rs[0]);
      ReceiveAccounted(cfg, l, rs[0]);
      if Receive(cfg, l, rs[0]).ok {
        ReceiveAllClear(cfg, Receive(cfg, l, rs[0]).l, rs[1..]);
      }
    }
  }

  lemma FinishScoped(cfg: Config, s: Sys, snaps: map<string, Snapshot>, height: nat, scope: CoinScope)
    requires Inv(cfg, s) && s.task.Running? && QueuesAccounted(s.l) && ClearSys(s)
    requires ClearEvent(cfg, s, FinishEv(snaps, height), scope)
    ensures QueuesAccounted(Scoped(s.l, scope))
    ensures var q, r := ScopedSys(s, scope), Finish(cfg, s.l, s.task.epoch, s.task.clone, snaps, height);
            && Finish(cfg, q.l, q.task.epoch, q.task.clone, InScopeSnaps(snaps, scope), height) ==
                 LReply(Scoped(r.l, scope), r.ok)
            && r.l.cache.None?
  {
    hide Finish, Scoped, ScopedState, SameVerdict, ClearLoad, ClearBlocks, InScopeSnaps, Accounted, QueuesOk, CacheOk,
         Published, Replay;
    ScopedAccounted(s.l, scope);
    ScopedHeader(s.l, scope);
    FinishCache(cfg, s, snaps, height);
    if s.task.epoch != s.l.epoch {
      StaleFinish(cfg, s.l, s.task.epoch, s.task.clone, snaps, height);
      StaleFinish(cfg, Scoped(s.l, scope), s.task.epoch, ScopedTask(s.task, scope).clone, InScopeSnaps(snaps, scope),
                  height);
    } else if s.task.clone.None? {
      FinishLoadScoped(cfg, s.l, snaps, height, scope);
    } else {
      AuditScoped(cfg, s, snaps, height, scope);
    }
  }

  lemma ScopedHeader(l: Listener, scope: CoinScope)
    ensures Scoped(l, scope).epoch == l.epoch && (Scoped(l, scope).cache.Some? <==> l.cache.Some?)
    ensures Scoped(l, scope).live == if l.live.Some? then Some(ScopedState(l.live.value, scope)) else None
  {
    hide ScopedState;
  }

  lemma InvalidateScoped(l: Listener, scope: CoinScope)
    ensures Invalidate(Scoped(l, scope)) == Scoped(Invalidate(l), scope)
  {
    hide ScopedState, NarrowQueue, ScopedOut, NarrowedAll;
  }

  lemma TurnCache(cfg: Config, l: Listener, rs: seq<Record>)
    requires QueuesAccounted(l) && ReceiveAll(cfg, l, rs).ok
    ensures Turn(cfg, l, rs).cache == ReceiveAll(cfg, l, rs).l.cache
  {
    hide ReceiveAll, Accounted;
  }

  lemma FinishCache(cfg: Config, s: Sys, snaps: map<string, Snapshot>, height: nat)
    requires Inv(cfg, s) && s.task.Running? && QueuesAccounted(s.l)
    ensures Finish(cfg, s.l, s.task.epoch, s.task.clone, snaps, height).l.cache.None?
  {
    hide QueuesOk, CacheOk, Published, Finish, Replay;
    FinishKeeps(cfg, s, snaps, height);
  }

  /** Every step of the scoped system is the projection of the step. */
  lemma StepScoped(cfg: Config, s: Sys, e: Event, scope: CoinScope)
    requires Inv(cfg, s) && Enabled(s, e) && QueuesAccounted(s.l) && ClearSys(s) && ClearEvent(cfg, s, e, scope)
    ensures Enabled(ScopedSys(s, scope), ScopedEvent(e, scope)) && QueuesAccounted(Scoped(s.l, scope))
    ensures Next(cfg, ScopedSys(s, scope), ScopedEvent(e, scope)) == ScopedSys(Next(cfg, s, e), scope)
    ensures ClearSys(Next(cfg, s, e))
  {
    hide Inv, Finish, Turn, Scoped, ScopedState, ClearRecords, ClearBlocks, Accounted, ReceiveAll, InScopeSnaps,
         ScopedRecords;
    ScopedAccounted(s.l, scope);
    ScopedHeader(s.l, scope);
    FenceScoped(s.l, scope);
    match e {
      case TurnEv(rs) =>
        TurnScoped(cfg, s.l, rs, scope);
        ReceiveAllClear(cfg, s.l, rs);
        TurnCache(cfg, s.l, rs);
      case FinishEv(snaps, height) => FinishScoped(cfg, s, snaps, height, scope);
      case BeginEv => BeginScoped(s.l, scope);
      case ReadEv => ReadScoped(s.l, scope);
      case _ =>
        TakeCacheScoped(s.l, scope);
        InvalidateScoped(s.l, scope);
    }
  }

  /**
   Over every run in which the unrestricted listener succeeds, the scoped one, fed the filtered
   records and snapshots, goes through the projections of its states, queue and cache bytes,
   epochs, times, views and broadcasts included.
   */
  lemma {:induction false} RunScoped(cfg: Config, s: Sys, es: seq<Event>, scope: CoinScope)
    requires Inv(cfg, s) && Inv(cfg, ScopedSys(s, scope)) && ClearSys(s) && ClearRun(cfg, s, es, scope)
    ensures var r, q := RunEvents(cfg, s, es), RunEvents(cfg, ScopedSys(s, scope), ScopedEvents(es, scope));
            r.Some? ==> q == Some(ScopedSys(r.value, scope))
    decreases |es|
  {
    hide Inv, Next, ClearEvent, ClearSys, ScopedSys, ScopedEvent;
    if es == [] {
      assert ScopedEvents(es, scope) == [];
    } else if Enabled(s, es[0]) {
      TaskEpoch(cfg, s);
      StepKeeps(cfg, s, es[0]);
      StepScoped(cfg, s, es[0], scope);
      StepKeeps(cfg, ScopedSys(s, scope), ScopedEvent(es[0], scope));
      RunScoped(cfg, Next(cfg, s, es[0]), es[1..], scope);
      assert ScopedEvents(es, scope)[1..] == ScopedEvents(es[1..], scope);
    }
  }

  ghost predicate ClearFromStart(cfg: Config, es: seq<Event>, scope: CoinScope) {
    InitInv(cfg);
    ClearRun(cfg, INIT, es, scope)
  }

  /** In particular from the start, where both listeners are the same. */
  lemma RunScopedFromStart(cfg: Config, es: seq<Event>, scope: CoinScope)
    requires ClearFromStart(cfg, es, scope)
    ensures var r := FromStart(cfg, es); 
            r.Some? ==> FromStart(cfg, ScopedEvents(es, scope)) == Some(ScopedSys(r.value, scope))
  {
    hide Inv, RunEvents, ClearRun;
    InitInv(cfg);
    StartScoped(scope);
    RunScoped(cfg, INIT, es, scope);
  }

  lemma StartScoped(scope: CoinScope)
    ensures ScopedSys(INIT, scope) == INIT && ClearSys(INIT)
  {
    assert ScopedOut([], scope) == [];
    assert NarrowQueue(EmptyQueue(), StatusIn(scope)) == EmptyQueue<Status>();
    assert NarrowQueue(EmptyQueue(), DiffIn(scope)) == EmptyQueue<Diff>();
  }
}
