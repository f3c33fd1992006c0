/**
 That what happens is said, over whole runs: views are broadcast for every height a turn ends at,
 once; fills are broadcast when their height is new, in order; a stream that breaks is fenced at
 once, and nothing but fills is served until a book is loaded again.
 */
module Announcements {
  import opened Prelude
  import opened Snapshots
  import opened Blocks
  import opened Replays
  import opened Queues
  import opened BookState
  import opened Listeners
  import opened Audit
  import opened Protocol
  import opened Publication
  import opened Freshness

  // ----- the broadcast views

  /** Height of the latest views broadcast since the last gap. */
  function LastL2(out: seq<Msg>): Option<nat> {
    if out == [] then None
    else
      match out[|out| - 1]
      case Gap => None
      case L2(_, _, h) => Some(h)
      case _ => LastL2(out[..|out| - 1])
  }

  lemma LastL2Append(out: seq<Msg>, m: Msg)
    ensures LastL2(out + [m]) == match m { case Gap => None case L2(_, _, h) => Some(h) case _ => LastL2(out) }
  {
    assert (out + [m])[..|out|] == out;
  }

  /** The live state counts as published exactly when the latest views since the last gap are at its height. */
  ghost predicate Announced(l: Listener) {
    if l.live.None? then LastL2(l.out).None?
    else
      var h := l.live.value.core.height;
      && (l.live.value.snapped <==> LastL2(l.out) == Some(h))
      && (LastL2(l.out).Some? ==> LastL2(l.out).value <= h)
  }

  /** Applying a block keeps the published mark exactly while the height stays. */
  lemma UpdatedMark(s: State, b: Block, ignoreSpot: bool)
    ensures var u := Updated(s, b, ignoreSpot).state;
            && u.core.height >= s.core.height
            && (u.snapped <==> s.snapped && u.core.height == s.core.height)
  {
    hide ApplyDiffs;
  }

  lemma AdvancedAnnounced(cfg: Config, l: Listener, b: Block)
    requires l.live.Some? && Announced(l)
    ensures var r := Advanced(cfg, l, b).l; Announced(r) && r.live.Some? && LastL2(r.out) == LastL2(l.out)
  {
    hide LastL2, Updated;
    UpdatedMark(l.live.value, b, cfg.ignoreSpot);
    RememberOutAndLive(cfg, l.(live := Some(Updated(l.live.value, b, cfg.ignoreSpot).state)), b);
    LastL2Append(l.out, L4(b));
    hide Remember;
  }

  lemma RememberOutAndLive(cfg: Config, l: Listener, b: Block)
    ensures Remember(cfg, l, b).out == l.out && Remember(cfg, l, b).live == l.live
  {
  }

  lemma ReceiveAnnounced(cfg: Config, l: Listener, r: Record)
    requires QueuesAccounted(l) && Announced(l)
    ensures var q := Receive(cfg, l, r).l;
            Announced(q) && (q.live.Some? <==> l.live.Some?) && LastL2(q.out) == LastL2(l.out)
  {
    EnqueueAccounted(cfg, l, r);
    EnqueueAnnounced(cfg, l, r);
    hide Enqueue, LastL2, PopPair, Accounted, Advanced, Announced;
    var e := Enqueue(cfg, l, r);
    if e.ok && e.l.live.Some? {
      var p := PopPair(e.l.statuses, e.l.diffs);
      var l1 := e.l.(statuses := p.left, diffs := p.right);
      SameAnnounced(e.l, l1);
      if p.pair.Some? {
        AdvancedAnnounced(cfg, l1, Block(p.pair.value.0, p.pair.value.1));
      }
    }
  }

  lemma SameAnnounced(l: Listener, l': Listener)
    requires Announced(l) && l'.live == l.live && l'.out == l.out
    ensures Announced(l')
  {
  }

  lemma EnqueueAnnounced(cfg: Config, l: Listener, r: Record)
    requires Announced(l)
    ensures var e := Enqueue(cfg, l, r).l; Announced(e) && e.live == l.live && LastL2(e.out) == LastL2(l.out)
  {
    hide Push, LastL2;
    if r.FillRecord? {
      LastL2Append(l.out, Fills(r.f));
    }
  }

  lemma {:induction false} ReceiveAllAnnounced(cfg: Config, l: Listener, rs: seq<Record>)
    requires QueuesAccounted(l) && Announced(l)
    ensures var q := ReceiveAll(cfg, l, rs).l;
            Announced(q) && (q.live.Some? <==> l.live.Some?) && LastL2(q.out) == LastL2(l.out)
    decreases |rs|
  {
    hide Receive, Announced, LastL2, Accounted;
    if rs != [] {
      ReceiveAnnounced(cfg, l, rs[0]);
      ReceiveAccounted(cfg, l, rs[0]);
      var q := Receive(cfg, l, rs[0]);
      if q.ok {
        ReceiveAllAnnounced(cfg, q.l, rs[1..]);
      }
    }
  }

  lemma FenceAnnounced(l: Listener)
    ensures Announced(Fence(l)) && LastL2(Fence(l).out).None?
  {
    LastL2Append(l.out, Gap);
    hide LastL2;
  }

  lemma PublishAnnounced(l: Listener)
    requires Announced(l)
    ensures var p := PublishViews(l);
            && Announced(p) && (p.live.Some? <==> l.live.Some?)
            && (l.live.Some? ==>
                  p.live.value.core == l.live.value.core && LastL2(p.out) == Some(l.live.value.core.height))
  {
    hide LastL2, Refreshed;
    if l.live.Some? && !l.live.value.snapped {
      SnappedCore(l.live.value);
      var s := Snapped(l.live.value);
      LastL2Append(l.out, L2(s.cache, s.core.time, s.core.height));
    }
  }

  lemma TurnAnnounced(cfg: Config, l: Listener, rs: seq<Record>)
    requires QueuesAccounted(l) && Announced(l)
    ensures var r := Turn(cfg, l, rs);
            Announced(r) && (r.live.Some? ==> LastL2(r.out) == Some(r.live.value.core.height))
  {
    hide ReceiveAll, Announced, LastL2, Accounted;
    ReceiveAllAnnounced(cfg, l, rs);
    var q := ReceiveAll(cfg, l, rs).l;
    if ReceiveAll(cfg, l, rs).ok {
      PublishAnnounced(q);
    } else {
      FenceAnnounced(q);
    }
  }

  lemma {:induction false} LoadUnsnapped(cfg: Config, l: Listener, s: State)
    requires QueuesAccounted(l) && l.live.None? && !s.snapped
    ensures var r := InitLoop(cfg, l, s);
            r.out == l.out && r.lastFill == l.lastFill && (r.live.Some? ==> !r.live.value.snapped)
    decreases |l.statuses.items| + |l.diffs.items|
  {
    hide PopPair, Accounted, Updated;
    PopShrinks(l.statuses, l.diffs);
    InitLoopStep(cfg, l, s);
    var p := PopPair(l.statuses, l.diffs);
    if p.pair.Some? {
      var b := Block(p.pair.value.0, p.pair.value.1);
      UpdatedMark(s, b, cfg.ignoreSpot);
      if Updated(s, b, cfg.ignoreSpot).ok {
        LoadUnsnapped(cfg, l.(statuses := p.left, diffs := p.right), Updated(s, b, cfg.ignoreSpot).state);
      }
    }
  }

  lemma CommitAnnounced(l: Listener, s: State, benign: bool)
    requires l.live.Some? && Announced(l) && !s.snapped && s.core.height == l.live.value.core.height
    ensures Announced(Commit(l, s, benign))
    ensures benign ==> LastL2(Commit(l, s, benign).out) == Some(s.core.height)
    ensures !benign ==> LastL2(Commit(l, s, benign).out).None?
  {
    hide LastL2, Refreshed;
    SnappedCore(s);
    var v := Snapped(s);
    LastL2Append(l.out, L2(v.cache, v.core.time, v.core.height));
    LastL2Append(l.out, Gap);
  }

  lemma FinishAnnounced(cfg: Config, s: Sys, snaps: map<string, Snapshot>, height: nat)
    requires Inv(cfg, s) && s.task.Running? && QueuesAccounted(s.l) && Announced(s.l)
    ensures Announced(Finish(cfg, s.l, s.task.epoch, s.task.clone, snaps, height).l)
  {
    hide Announced, QueuesOk, CacheOk, Published, Replay, CatchUp, UpdatedAll, FromNode, Validate, Commit, InitLoop,
         Accounted, Chained;
    SameAnnounced(s.l, TakeCache(s.l));
    if s.task.epoch == s.l.epoch {
      if s.task.clone.None? {
        FinishInit(cfg, s.l, s.task.epoch, snaps, height);
        FromNodeHeader(snaps, height, 0);
        LoadUnsnapped(cfg, TakeCache(s.l), FromNode(snaps, height, 0));
        LoadAnnounced(TakeCache(s.l), InitLoop(cfg, TakeCache(s.l), FromNode(snaps, height, 0)));
      } else {
        AuditAnnounced(cfg, s, snaps, height);
      }
    }
  }

  lemma LoadAnnounced(l: Listener, l': Listener)
    requires Announced(l) && l.live.None? && l'.out == l.out && (l'.live.Some? ==> !l'.live.value.snapped)
    ensures Announced(l')
  {
    hide LastL2;
  }

  lemma AuditAnnounced(cfg: Config, s: Sys, snaps: map<string, Snapshot>, height: nat)
    requires AuditInv(cfg, s) && s.task.Running? && s.task.epoch == s.l.epoch && s.l.live.Some? && QueuesAccounted(s.l)
    requires Announced(TakeCache(s.l))
    ensures Announced(Finish(cfg, s.l, s.task.epoch, s.task.clone, snaps, height).l)
  {
    hide Announced, Replay, CatchUp, UpdatedAll, FromNode, Validate, Commit, Accounted;
    CommitsAtLiveHeight(cfg, s, snaps, height);
    var c := CatchUp(s.task.clone.value, height, s.l.cache.value, cfg.ignoreSpot);
    if c.Reached? {
      var v := Validate(ToSnapshots(c.state.core.books), snaps, cfg.ignoreSpot);
      var n := FromNode(snaps, height, if v == EmptyBooksAdded then c.state.core.time else 0);
      FromNodeHeader(snaps, height, if v == EmptyBooksAdded then c.state.core.time else 0);
      StaysUnsnapped(n, c.rest, cfg.ignoreSpot);
      var u := UpdatedAll(n, c.rest, cfg.ignoreSpot);
      CommitLive(TakeCache(s.l), u.state, v == EmptyBooksAdded);
      if u.ok && u.state.core.height == s.l.live.value.core.height {
        CommitAnnounced(TakeCache(s.l), u.state, v == EmptyBooksAdded);
      }
    }
  }

  lemma CommitLive(l: Listener, s: State, benign: bool)
    ensures Commit(l, s, benign).live.Some? && Commit(l, s, benign).live.value.core == s.core
  {
    SnappedCore(s);
    hide Refreshed;
  }

  lemma StepAnnounced(cfg: Config, s: Sys, e: Event)
    requires Inv(cfg, s) && Enabled(s, e) && QueuesAccounted(s.l) && Announced(s.l)
    ensures Announced(Next(cfg, s, e).l)
  {
    hide Inv, Announced, Turn, Finish, Accounted, Refreshed;
    match e {
      case TurnEv(rs) => TurnAnnounced(cfg, s.l, rs);
      case FinishEv(snaps, height) => FinishAnnounced(cfg, s, snaps, height);
      case ReadEv => ReadAnnounced(s.l);
      case _ =>
        FenceAnnounced(s.l);
        SameAnnounced(s.l, TakeCache(s.l));
        SameAnnounced(s.l, Invalidate(s.l));
        SameAnnounced(s.l, BeginCaching(s.l));
    }
  }

  lemma ReadAnnounced(l: Listener)
    requires Announced(l)
    ensures Announced(Read(l))
  {
    hide LastL2, DirtyViews;
  }

  /**
   In every reachable state the live book counts as published exactly when the latest views since
   the last gap are at its height, and without a live book no views have followed the last gap.
   */
  lemma {:induction false} RunAnnounced(cfg: Config, s: Sys, es: seq<Event>)
    requires Inv(cfg, s) && Announced(s.l)
    ensures var r := RunEvents(cfg, s, es); r.Some? ==> Announced(r.value.l)
    decreases |es|
  {
    hide Inv, Next, Announced;
    if es != [] && Enabled(s, es[0]) {
      TaskEpoch(cfg, s);
      StepKeeps(cfg, s, es[0]);
      StepAnnounced(cfg, s, es[0]);
      RunAnnounced(cfg, Next(cfg, s, es[0]), es[1..]);
    }
  }

  lemma StartAnnounced()
    ensures Announced(INIT.l)
  {
  }

  // ----- what one turn broadcasts

  /** The views among the messages. */
  function L2s(ms: seq<Msg>): seq<Msg> {
    if ms == [] then [] else L2s(ms[..|ms| - 1]) + (if ms[|ms| - 1].L2? then [ms[|ms| - 1]] else [])
  }

  lemma {:induction false} L2sConcat(a: seq<Msg>, b: seq<Msg>)
    ensures L2s(a + b) == L2s(a) + L2s(b)
  {
    if b == [] {
      assert a + b == a;
    } else {
      assert (a + b)[..|a + b| - 1] == a + b[..|b| - 1];
      L2sConcat(a, b[..|b| - 1]);
    }
  }

  /** The listener says nothing about views on the way, and goes on from where it was. */
  ghost predicate WithoutViews(l: Listener, l': Listener) {
    && l.out <= l'.out && L2s(News(l, l')) == []
    && (l.live.Some? ==> l'.live.Some? && l'.live.value.core.height >= l.live.value.core.height)
  }

  lemma WithoutViewsTrans(a: Listener, b: Listener, c: Listener)
    requires WithoutViews(a, b) && WithoutViews(b, c)
    ensures WithoutViews(a, c)
  {
    NewsSplit(a, b, c);
    L2sConcat(News(a, b), News(b, c));
    hide L2s, News;
  }

  lemma OneWithoutViews(l: Listener, l': Listener, m: Msg)
    requires l'.out == l.out || (l'.out == l.out + [m] && !m.L2?)
    requires l.live.Some? ==> l'.live.Some? && l'.live.value.core.height >= l.live.value.core.height
    ensures WithoutViews(l, l')
  {
    if l'.out == l.out {
      assert News(l, l') == [];
    } else {
      assert News(l, l') == [m] && [m][..0] == [];
    }
  }

  lemma ReceiveWithoutViews(cfg: Config, l: Listener, r: Record)
    requires QueuesAccounted(l)
    ensures WithoutViews(l, Receive(cfg, l, r).l)
  {
    hide Push, PopPair, Updated, WithoutViews, Accounted, Remember;
    EnqueueAccounted(cfg, l, r);
    var e := Enqueue(cfg, l, r);
    OneWithoutViews(l, e.l, if r.FillRecord? then Fills(r.f) else Gap);
    if e.ok && e.l.live.Some? {
      var p := PopPair(e.l.statuses, e.l.diffs);
      var q := Drain(cfg, e.l).l;
      if p.pair.Some? {
        var b := Block(p.pair.value.0, p.pair.value.1);
        UpdatedMark(e.l.live.value, b, cfg.ignoreSpot);
        RememberOutAndLive(cfg, e.l.(statuses := p.left, diffs := p.right,
                                     live := Some(Updated(e.l.live.value, b, cfg.ignoreSpot).state)), b);
        OneWithoutViews(e.l, q, L4(b));
      } else {
        OneWithoutViews(e.l, q, Gap);
      }
      WithoutViewsTrans(l, e.l, q);
    }
  }

  lemma {:induction false} ReceiveAllWithoutViews(cfg: Config, l: Listener, rs: seq<Record>)
    requires QueuesAccounted(l)
    ensures WithoutViews(l, ReceiveAll(cfg, l, rs).l)
    decreases |rs|
  {
    hide Receive, WithoutViews, Accounted;
    if rs == [] {
      OneWithoutViews(l, l, Gap);
    } else {
      ReceiveWithoutViews(cfg, l, rs[0]);
      ReceiveAccounted(cfg, l, rs[0]);
      var q := Receive(cfg, l, rs[0]);
      if q.ok {
        ReceiveAllWithoutViews(cfg, q.l, rs[1..]);
        WithoutViewsTrans(l, q.l, ReceiveAll(cfg, q.l, rs[1..]).l);
      }
    }
  }

  /**
   A turn that succeeds over a live book broadcasts exactly one map of views, as its last message
   and at the height it ends at, unless the latest views are at that height already; then none.
   */
  lemma TurnViews(cfg: Config, l: Listener, rs: seq<Record>)
    requires QueuesAccounted(l) && Announced(l) && l.live.Some? && ReceiveAll(cfg, l, rs).ok
    ensures var r := Turn(cfg, l, rs);
            && r.live.Some? && l.out <= r.out && r.live.value.core.height >= l.live.value.core.height
            && var c := r.live.value.core;
               && (LastL2(l.out) == Some(c.height) ==> L2s(News(l, r)) == [])
               && (LastL2(l.out) != Some(c.height) ==>
                     && L2s(News(l, r)) == [L2(r.live.value.cache, c.time, c.height)]
                     && r.out[|r.out| - 1] == L2(r.live.value.cache, c.time, c.height))
    ensures var r := Turn(cfg, l, rs);
            && (r.live.value.core.height > l.live.value.core.height ==> |L2s(News(l, r))| == 1)
            && (r.live.value.core.height == l.live.value.core.height
                && LastL2(l.out) == Some(l.live.value.core.height) ==>
                  L2s(News(l, r)) == [])
  {
    hide ReceiveAll, Accounted, LastL2, Refreshed, L2s, News;
    ReceiveAllAnnounced(cfg, l, rs);
    ReceiveAllWithoutViews(cfg, l, rs);
    var q := ReceiveAll(cfg, l, rs).l;
    SnappedCore(q.live.value);
    PublishNews(q);
    NewsSplit(l, q, PublishViews(q));
    L2sConcat(News(l, q), News(q, PublishViews(q)));
  }

  lemma PublishNews(l: Listener)
    requires l.live.Some?
    ensures var p := PublishViews(l);
            && p.live.Some? && l.out <= p.out && p.live.value.core == l.live.value.core
            && if l.live.value.snapped then p == l && L2s(News(l, p)) == []
               else
                 var m := L2(p.live.value.cache, p.live.value.core.time, p.live.value.core.height);
                 p.out == l.out + [m] && L2s(News(l, p)) == [m]
  {
    hide Refreshed;
    SnappedCore(l.live.value);
    var p := PublishViews(l);
    if l.live.value.snapped {
      assert News(l, p) == [];
    } else {
      var s := Snapped(l.live.value);
      var m := L2(s.cache, s.core.time, s.core.height);
      assert News(l, p) == [m] && [m][..0] == [];
    }
  }

  /**
   From the start, with one coin per order in a block: what is broadcast then is the full rebuild of
   the live books.
   */
  lemma EveryTurnAnnounces(cfg: Config, es: seq<Event>, s: Sys, rs: seq<Record>, f: Owner)
    requires cfg.ignoreSpot == f.ignoreSpot && forall i :: 0 <= i < |es| ==> EventOwned(es[i], f)
    requires FromStart(cfg, es) == Some(s) && EventOwned(TurnEv(rs), f) && s.l.live.Some?
    ensures QueuesAccounted(s.l)
    ensures ReceiveAll(cfg, s.l, rs).ok ==>
              var r := Turn(cfg, s.l, rs);
              && r.live.Some? && s.l.out <= r.out
              && var c, was := r.live.value.core, s.l.live.value.core;
                 && c.height >= was.height && LastL2(r.out) == Some(c.height)
                 && (c.height > was.height ==> L2s(News(s.l, r)) == [L2(AllViews(c.books), c.time, c.height)])
                 && (c.height == was.height && LastL2(s.l.out) == Some(was.height) ==> L2s(News(s.l, r)) == [])
  {
    hide *;
    InitInv(cfg);
    StartAnnounced();
    StartFresh(f);
    RunFromInit(cfg, es);
    RunAnnounced(cfg, INIT, es);
    RunFresh(cfg, INIT, es, f);
    RunSafe(cfg, INIT, es);
    TaskEpoch(cfg, s);
    if ReceiveAll(cfg, s.l, rs).ok {
      TurnViews(cfg, s.l, rs);
      TurnAnnounced(cfg, s.l, rs);
      TurnRebuilds(cfg, s, rs, f);
      var r := Turn(cfg, s.l, rs);
      if L2s(News(s.l, r)) != [] {
        L2From(News(s.l, r), r);
      }
    }
  }

  lemma RunFromInit(cfg: Config, es: seq<Event>)
    ensures Inv(cfg, INIT) && FromStart(cfg, es) == RunEvents(cfg, INIT, es)
  {
    InitInv(cfg);
    hide RunEvents, Inv;
  }

  lemma StartFresh(f: Owner)
    ensures FreshSys(INIT, f)
  {
  }

  lemma TurnRebuilds(cfg: Config, s: Sys, rs: seq<Record>, f: Owner)
    requires cfg.ignoreSpot == f.ignoreSpot && QueuesAccounted(s.l) && FreshSys(s, f) && EventOwned(TurnEv(rs), f)
    ensures var r := Turn(cfg, s.l, rs); s.l.out <= r.out && Rebuilds(News(s.l, r), r.live)
  {
    hide Turn, Rebuilds, FreshSys, EventOwned, Accounted;
    StepFresh(cfg, s, TurnEv(rs), f);
  }

  /** The single map of views among the messages is the rebuild. */
  lemma L2From(ms: seq<Msg>, l: Listener)
    requires Rebuilds(ms, l.live) && L2s(ms) != []
    ensures l.live.Some?
    ensures var c := l.live.value.core; L2s(ms)[0] == L2(AllViews(c.books), c.time, c.height)
  {
    hide AllViews;
    L2sIn(ms);
    hide L2s;
    assert L2s(ms)[0] in ms && L2s(ms)[0].L2?;
  }

  lemma {:induction false} L2sIn(ms: seq<Msg>)
    ensures forall i :: 0 <= i < |L2s(ms)| ==> L2s(ms)[i] in ms && L2s(ms)[i].L2?
  {
    if ms != [] {
      L2sIn(ms[..|ms| - 1]);
    }
  }

  // ----- broken streams

  /** An unreadable record anywhere in a chunk, or one that does not fit its queue, breaks the chunk off. */
  lemma {:induction false} BadRecordFails(cfg: Config, l: Listener, rs: seq<Record>, k: nat)
    requires QueuesAccounted(l) && k < |rs| && rs[k].MalformedRecord?
    ensures !ReceiveAll(cfg, l, rs).ok
    decreases |rs|
  {
    hide Drain, Accounted, Push;
    var q := Receive(cfg, l, rs[0]);
    ReceiveAccounted(cfg, l, rs[0]);
    if k > 0 && q.ok {
      assert rs[1..][k - 1] == rs[k];
      hide Receive;
      BadRecordFails(cfg, q.l, rs[1..], k - 1);
    }
  }

  /** The record does not read, or its queue has no room for it. */
  predicate Unacceptable(cfg: Config, l: Listener, r: Record) {
    match r
    case StatusRecord(b, aged) => Push(l.statuses, b, cfg.limits, aged).Refused?
    case DiffRecord(b, aged) => Push(l.diffs, b, cfg.limits, aged).Refused?
    case FillRecord(_) => false
    case MalformedRecord => true
  }

  /**
   An unacceptable record is an error without effect; any other is one only if it completes a pair
   for a live book.
   */
  lemma ReceiveVerdict(cfg: Config, l: Listener, r: Record)
    requires QueuesAccounted(l)
    ensures Unacceptable(cfg, l, r) ==> Receive(cfg, l, r) == LReply(l, false)
    ensures !Unacceptable(cfg, l, r) && l.live.None? ==> Receive(cfg, l, r).ok
    ensures !Unacceptable(cfg, l, r) && l.live.Some? ==>
              var e := Enqueue(cfg, l, r);
              && e.ok && e.l.live == l.live && QueuesAccounted(e.l)
              && var p := PopPair(e.l.statuses, e.l.diffs);
                 var l1 := e.l.(statuses := p.left, diffs := p.right);
                 Receive(cfg, l, r) == if p.pair.None? then LReply(l1, true)
                                       else Advanced(cfg, l1, Block(p.pair.value.0, p.pair.value.1))
  {
    EnqueueAccounted(cfg, l, r);
    hide Push, Advanced, PopPair, Accounted;
  }

  /**
   A pair above the next height, or one that does not apply, is an error; one at or below the live
   height is passed over.
   */
  lemma PairVerdict(cfg: Config, l: Listener, b: Block)
    requires l.live.Some?
    ensures var r, h := Advanced(cfg, l, b), l.live.value.core.height;
            && (b.statuses.height <= h ==> r == LReply(l, true))
            && (b.statuses.height > h + 1 ==> !r.ok)
            && (b.statuses.height == h + 1 ==>
                  (r.ok <==> ApplyBlock(l.live.value.core, b, cfg.ignoreSpot).ok && BlockBytes(b) <= USIZE_MAX))
            && (r.ok && b.statuses.height == h + 1 ==>
                  && r.l.live.Some? && r.l.live.value.core == ApplyBlock(l.live.value.core, b, cfg.ignoreSpot).core
                  && r.l.out == l.out + [L4(b)])
  {
    GapOrNext(l.live.value.core, b, cfg.ignoreSpot);
    RememberOutAndLive(cfg, l.(live := Some(Updated(l.live.value, b, cfg.ignoreSpot).state)), b);
    hide ApplyBlock, Remember;
  }

  lemma GapOrNext(c: Core, b: Block, ignoreSpot: bool)
    ensures b.statuses.height > c.height + 1 ==> !ApplyBlock(c, b, ignoreSpot).ok
  {
    hide ApplyDiffs;
  }

  /**
   A chunk that breaks off fences at once: the last message is a gap, there is no live book, both
   queues are empty, and every attempt in flight is overtaken.
   */
  lemma BrokenTurnFences(cfg: Config, l: Listener, rs: seq<Record>)
    requires QueuesAccounted(l) && !ReceiveAll(cfg, l, rs).ok
    ensures var r := Turn(cfg, l, rs);
            && r.out != [] && r.out[|r.out| - 1] == Gap
            && r.live.None? && r.cache.None?
            && r.statuses == EmptyQueue() && r.diffs == EmptyQueue()
            && r.epoch > l.epoch && LastL2(r.out).None? && LastL4(r.out).None?
  {
    TurnOvertakes(cfg, l, rs);
    ReceiveAllOvertakes(cfg, l, rs);
    var q := ReceiveAll(cfg, l, rs).l;
    LastL2Append(q.out, Gap);
    LastL4Append(q.out, Gap);
    hide ReceiveAll, LastL2, LastL4, Accounted, Overtakes, NoGap, News;
    EpochsOnward(l, q);
  }

  lemma EpochsOnward(l: Listener, l': Listener)
    requires Overtakes(l, l')
    ensures l.epoch <= l'.epoch
  {
    hide NoGap, News;
  }

  /** A crash of the snapshot owner, and an audit that failed once it is collected, fence the stream. */
  lemma FailedAttemptFences(cfg: Config, s: Sys, e: Event)
    requires Inv(cfg, s) && Enabled(s, e) && QueuesAccounted(s.l)
    requires e.CrashEv? || e.FenceEv? || (e.JoinEv? && s.task == Done(false))
    ensures var r := Next(cfg, s, e).l;
            && r.out == s.l.out + [Gap] && r.live.None? && r.cache.None? && r.epoch > s.l.epoch
            && r.statuses == EmptyQueue() && r.diffs == EmptyQueue()
    ensures e.FenceEv? || Next(cfg, s, e).task == Idle
  {
    hide Inv;
  }

  /**
   A snapshot that could not be had, an expired audit and a collected success leave the live book
   and the broadcasts alone.
   */
  lemma HarmlessEnds(cfg: Config, s: Sys, e: Event)
    requires Inv(cfg, s) && Enabled(s, e) && QueuesAccounted(s.l)
    requires e.FailEv? || e.ExpireEv? || (e.JoinEv? && s.task == Done(true))
    ensures var r := Next(cfg, s, e).l;
            r.live == s.l.live && r.out == s.l.out && r.statuses == s.l.statuses && r.diffs == s.l.diffs
  {
    hide Inv;
  }

  /** Without a live book neither views nor blocks have been broadcast since the last gap, in any reachable state. */
  lemma FencedServesNothing(cfg: Config, s: Sys)
    requires Inv(cfg, s) && Announced(s.l) && s.l.live.None?
    ensures LastL2(s.l.out).None? && LastL4(s.l.out).None?
  {
    hide QueuesOk, CacheOk, Chained, AuditInv, LastL2, LastL4;
  }

  // ----- the remembered blocks

  /**
   An applied block joins the remembered ones as long as their number and bytes stay in budget; only
   beyond it the audit is given up.
   */
  lemma RememberedIff(cfg: Config, l: Listener, b: Block)
    requires l.live.Some? && b.statuses.height > l.live.value.core.height && Advanced(cfg, l, b).ok && l.cache.Some?
    requires l.cacheBytes == CachedBytes(l.cache.value) && cfg.limits.bytes <= USIZE_MAX
    ensures var r, all := Advanced(cfg, l, b).l, l.cache.value + [b];
            && (r.cache == Some(all) && r.epoch == l.epoch <==>
                  |all| <= cfg.limits.heights && CachedBytes(all) <= cfg.limits.bytes)
            && (r.cache == Some(all) || (r.cache.None? && r.epoch > l.epoch))
  {
    var all := l.cache.value + [b];
    assert all[..|all| - 1] == l.cache.value;
    hide Updated;
  }

  // ----- fills

  /** The heights of the fills broadcast. */
  function FillHeights(out: seq<Msg>): seq<nat> {
    if out == [] then []
    else FillHeights(out[..|out| - 1]) + (if out[|out| - 1].Fills? then [out[|out| - 1].fills.height] else [])
  }

  /** Fills are broadcast in order of height, each height once, and the last one is known. */
  ghost predicate FillsOk(l: Listener) {
    var hs := FillHeights(l.out);
    && (forall i, j :: 0 <= i < j < |hs| ==> hs[i] < hs[j])
    && l.lastFill == (if hs == [] then None else Some(hs[|hs| - 1]))
  }

  lemma FillsAppend(l: Listener, l': Listener, m: Msg)
    requires FillsOk(l) && (l'.out == l.out || l'.out == l.out + [m])
    requires if m.Fills? then l'.out == l.out + [m] && l'.lastFill == Some(m.fills.height)
             else l'.lastFill == l.lastFill
    requires m.Fills? && l.lastFill.Some? ==> l.lastFill.value < m.fills.height
    ensures FillsOk(l')
  {
    if l'.out == l.out + [m] {
      assert l'.out[..|l.out|] == l.out;
    }
  }

  lemma ReceiveFills(cfg: Config, l: Listener, r: Record)
    requires QueuesAccounted(l) && FillsOk(l)
    ensures FillsOk(Receive(cfg, l, r).l)
  {
    hide Push, PopPair, Updated, FillsOk, Accounted, Remember;
    EnqueueAccounted(cfg, l, r);
    var e := Enqueue(cfg, l, r);
    FillsAppend(l, e.l, if r.FillRecord? && e.l != l then Fills(r.f) else Gap);
    if e.ok && e.l.live.Some? {
      var p := PopPair(e.l.statuses, e.l.diffs);
      if p.pair.Some? {
        var b := Block(p.pair.value.0, p.pair.value.1);
        RememberFills(cfg, e.l.(statuses := p.left, diffs := p.right,
                                live := Some(Updated(e.l.live.value, b, cfg.ignoreSpot).state)), b);
        FillsAppend(e.l, Drain(cfg, e.l).l, L4(b));
      } else {
        FillsAppend(e.l, Drain(cfg, e.l).l, Gap);
      }
    }
  }

  lemma RememberFills(cfg: Config, l: Listener, b: Block)
    ensures Remember(cfg, l, b).out == l.out && Remember(cfg, l, b).lastFill == l.lastFill
  {
  }

  lemma {:induction false} ReceiveAllFills(cfg: Config, l: Listener, rs: seq<Record>)
    requires QueuesAccounted(l) && FillsOk(l)
    ensures FillsOk(ReceiveAll(cfg, l, rs).l)
    decreases |rs|
  {
    hide Receive, FillsOk, Accounted;
    if rs != [] {
      ReceiveFills(cfg, l, rs[0]);
      ReceiveAccounted(cfg, l, rs[0]);
      if Receive(cfg, l, rs[0]).ok {
        ReceiveAllFills(cfg, Receive(cfg, l, rs[0]).l, rs[1..]);
      }
    }
  }

  lemma TurnFills(cfg: Config, l: Listener, rs: seq<Record>)
    requires QueuesAccounted(l) && FillsOk(l)
    ensures FillsOk(Turn(cfg, l, rs))
  {
    hide ReceiveAll, FillsOk, Accounted, Refreshed;
    ReceiveAllFills(cfg, l, rs);
    var q := ReceiveAll(cfg, l, rs).l;
    FillsAppend(q, Fence(q), Gap);
    if q.live.Some? && !q.live.value.snapped {
      var s := Snapped(q.live.value);
      FillsAppend(q, PublishViews(q), L2(s.cache, s.core.time, s.core.height));
    } else {
      FillsAppend(q, PublishViews(q), Gap);
    }
  }

  lemma FinishFills(cfg: Config, s: Sys, snaps: map<string, Snapshot>, height: nat)
    requires Inv(cfg, s) && s.task.Running? && QueuesAccounted(s.l) && FillsOk(s.l)
    ensures FillsOk(Finish(cfg, s.l, s.task.epoch, s.task.clone, snaps, height).l)
  {
    hide FillsOk, QueuesOk, CacheOk, Published, Replay, FromNode, InitLoop, Accounted, Finish;
    var r := Finish(cfg, s.l, s.task.epoch, s.task.clone, snaps, height).l;
    if s.task.epoch != s.l.epoch {
      StaleFinish(cfg, s.l, s.task.epoch, s.task.clone, snaps, height);
    } else if s.task.clone.None? {
      FinishInit(cfg, s.l, s.task.epoch, snaps, height);
      FromNodeHeader(snaps, height, 0);
      LoadUnsnapped(cfg, TakeCache(s.l), FromNode(snaps, height, 0));
      FillsAppend(s.l, r, Gap);
    } else {
      CommitsAtLiveHeight(cfg, s, snaps, height);
      if r.out == s.l.out || r.out == s.l.out + [Gap] {
        FillsAppend(s.l, r, Gap);
      } else {
        var v, t, h :| r.out == s.l.out + [L2(v, t, h)];
        FillsAppend(s.l, r, L2(v, t, h));
      }
    }
  }

  lemma StepFills(cfg: Config, s: Sys, e: Event)
    requires Inv(cfg, s) && Enabled(s, e) && QueuesAccounted(s.l) && FillsOk(s.l)
    ensures FillsOk(Next(cfg, s, e).l)
  {
    hide Inv, FillsOk, Turn, Finish, Accounted, Refreshed;
    match e {
      case TurnEv(rs) => TurnFills(cfg, s.l, rs);
      case FinishEv(snaps, height) => FinishFills(cfg, s, snaps, height);
      case _ => FillsAppend(s.l, Next(cfg, s, e).l, Gap);
    }
  }

  /** Over every run, fences and reloads included, fills are broadcast in strictly rising order of height. */
  lemma {:induction false} RunFills(cfg: Config, s: Sys, es: seq<Event>)
    requires Inv(cfg, s) && FillsOk(s.l)
    ensures var r := RunEvents(cfg, s, es); r.Some? ==> FillsOk(r.value.l)
    decreases |es|
  {
    hide Inv, Next, FillsOk;
    if es != [] && Enabled(s, es[0]) {
      TaskEpoch(cfg, s);
      StepKeeps(cfg, s, es[0]);
      StepFills(cfg, s, es[0]);
      RunFills(cfg, Next(cfg, s, es[0]), es[1..]);
    }
  }

  predicate AllBelow(hs: seq<nat>, h: nat) {
    forall i :: 0 <= i < |hs| ==> hs[i] < h
  }

  lemma LastDecides(hs: seq<nat>, h: nat)
    requires forall i, j :: 0 <= i < j < |hs| ==> hs[i] < hs[j]
    ensures AllBelow(hs, h) <==> hs == [] || hs[|hs| - 1] < h
  {
    if hs != [] && hs[|hs| - 1] < h {
      assert forall i :: 0 <= i < |hs| ==> hs[i] <= hs[|hs| - 1];
    }
  }

  /** Fills above all heights broadcast so far are broadcast, and no others. */
  lemma FillsBroadcastIff(cfg: Config, l: Listener, b: Batch<Fill>)
    requires FillsOk(l)
    ensures var e := Enqueue(cfg, l, FillRecord(b));
            e.ok && if AllBelow(FillHeights(l.out), b.height) then e.l.out == l.out + [Fills(b)] else e.l == l
  {
    hide FillHeights, AllBelow;
    LastDecides(FillHeights(l.out), b.height);
  }
}
