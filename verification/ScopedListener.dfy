/**
 A listener restricted to a scope of coins beside an unrestricted one. As long as the unrestricted
 one succeeds, feeding the scoped one the filtered records and snapshots keeps it the exact
 projection: same epoch, heights, times, queue and cache accounting and verdicts of every limit,
 with the in-scope part of every book, batch, view and broadcast.
 */
module ScopedListener {
  import opened Prelude
  import opened Snapshots
  import opened Views
  import opened Blocks
  import opened Scopes
  import opened Queues
  import opened BookState
  import opened Listeners

  // ----- projections

  function NarrowBatches<E>(s: seq<Batch<E>>, f: E -> bool): (r: seq<Batch<E>>)
    ensures |r| == |s| && forall i {:trigger r[i]} :: 0 <= i < |s| ==> r[i] == Narrowed(s[i], f)
  {
    seq(|s|, i requires 0 <= i < |s| => Narrowed(s[i], f))
  }

  function NarrowQueue<E>(q: Queue<E>, f: E -> bool): Queue<E> {
    q.(items := NarrowBatches(q.items, f))
  }

  function RestrictViews(v: ViewMap, scope: CoinScope): ViewMap {
    map c | c in v && scope.Contains(c) :: v[c]
  }

  function ScopedState(s: State, scope: CoinScope): State {
    State(s.core.(books := Restrict(s.core.books, scope)), s.snapped, RestrictViews(s.cache, scope),
          InScope(s.dirty, scope))
  }

  function FillIn(scope: CoinScope): Fill -> bool {
    (x: Fill) => scope.Contains(x.coin)
  }

  function ScopedMsg(m: Msg, scope: CoinScope): Msg {
    match m
    case Gap => Gap
    case L2(v, t, h) => L2(RestrictViews(v, scope), t, h)
    case Fills(b) => Fills(Narrowed(b, FillIn(scope)))
    case L4(b) => L4(NarrowedBlock(b, scope))
  }

  function ScopedOut(out: seq<Msg>, scope: CoinScope): (r: seq<Msg>)
    ensures |r| == |out| && forall i {:trigger r[i]} :: 0 <= i < |out| ==> r[i] == ScopedMsg(out[i], scope)
  {
    seq(|out|, i requires 0 <= i < |out| => ScopedMsg(out[i], scope))
  }

  function Scoped(l: Listener, scope: CoinScope): Listener {
    l.(cache := if l.cache.Some? then Some(NarrowedAll(l.cache.value, scope)) else None,
       live := if l.live.Some? then Some(ScopedState(l.live.value, scope)) else None,
       statuses := NarrowQueue(l.statuses, StatusIn(scope)),
       diffs := NarrowQueue(l.diffs, DiffIn(scope)),
       out := ScopedOut(l.out, scope))
  }

  /** The record as parsed in scope. */
  function ScopedRecord(r: Record, scope: CoinScope): Record {
    match r
    case StatusRecord(b, aged) => StatusRecord(Narrowed(b, StatusIn(scope)), aged)
    case DiffRecord(b, aged) => DiffRecord(Narrowed(b, DiffIn(scope)), aged)
    case FillRecord(b) => FillRecord(Narrowed(b, FillIn(scope)))
    case MalformedRecord => MalformedRecord
  }

  // ----- queues

  lemma {:induction false} NarrowWire<E>(s: seq<Batch<E>>, f: E -> bool)
    ensures Wire(NarrowBatches(s, f)) == Wire(s)
  {
    if s != [] {
      NarrowWire(s[1..], f);
      assert NarrowBatches(s, f)[1..] == NarrowBatches(s[1..], f);
    }
  }

  lemma NarrowAccounted<E>(q: Queue<E>, f: E -> bool)
    requires Accounted(q)
    ensures Accounted(NarrowQueue(q, f))
  {
    NarrowWire(q.items, f);
  }

  lemma ScopedAccounted(l: Listener, scope: CoinScope)
    requires QueuesAccounted(l)
    ensures QueuesAccounted(Scoped(l, scope))
  {
    NarrowAccounted(l.statuses, StatusIn(scope));
    NarrowAccounted(l.diffs, DiffIn(scope));
  }

  /** All limits see the same heights, lengths and counts, so a push has the same outcome. */
  lemma PushScoped<E>(q: Queue<E>, b: Batch<E>, limits: Limits, aged: bool, f: E -> bool)
    ensures Push(NarrowQueue(q, f), Narrowed(b, f), limits, aged) ==
            match Push(q, b, limits, aged)
            case Accepted(q') => Accepted(NarrowQueue(q', f))
            case Stale => Stale
            case Refused => Refused
  {
    hide Filter;
    assert NarrowBatches(q.items + [b], f) == NarrowBatches(q.items, f) + [Narrowed(b, f)];
  }

  lemma DropScoped<E>(q: Queue<E>, f: E -> bool)
    requires Accounted(q) && q.items != []
    ensures Accounted(NarrowQueue(q, f)) && DropFront(NarrowQueue(q, f)) == NarrowQueue(DropFront(q), f)
  {
    NarrowAccounted(q, f);
    assert NarrowBatches(q.items, f)[1..] == NarrowBatches(q.items[1..], f);
  }

  lemma {:induction false} PopScoped(a: Queue<Status>, b: Queue<Diff>, scope: CoinScope)
    requires Accounted(a) && Accounted(b)
    ensures Accounted(NarrowQueue(a, StatusIn(scope))) && Accounted(NarrowQueue(b, DiffIn(scope)))
    ensures var p, q := PopPair(a, b), PopPair(NarrowQueue(a, StatusIn(scope)), NarrowQueue(b, DiffIn(scope)));
            && q.left == NarrowQueue(p.left, StatusIn(scope)) && q.right == NarrowQueue(p.right, DiffIn(scope))
            && (p.pair.None? <==> q.pair.None?)
            && (p.pair.Some? ==>
                  Block(q.pair.value.0, q.pair.value.1) == NarrowedBlock(Block(p.pair.value.0, p.pair.value.1), scope))
    decreases |a.items| + |b.items|
  {
    hide Filter, Accounted;
    NarrowAccounted(a, StatusIn(scope));
    NarrowAccounted(b, DiffIn(scope));
    if a.items != [] && b.items != [] {
      DropScoped(a, StatusIn(scope));
      DropScoped(b, DiffIn(scope));
      if b.items[0].height < a.items[0].height {
        PopScoped(a, DropFront(b), scope);
      } else if b.items[0].height > a.items[0].height {
        PopScoped(DropFront(a), b, scope);
      }
    }
  }

  lemma OutAppend(out: seq<Msg>, m: Msg, scope: CoinScope)
    ensures ScopedOut(out + [m], scope) == ScopedOut(out, scope) + [ScopedMsg(m, scope)]
  {
    hide ScopedMsg;
  }

  lemma EnqueueScoped(cfg: Config, l: Listener, r: Record, scope: CoinScope)
    ensures var e := Enqueue(cfg, l, r);
            Enqueue(cfg, Scoped(l, scope), ScopedRecord(r, scope)) == LReply(Scoped(e.l, scope), e.ok)
  {
    hide Push, Filter, ScopedState, NarrowedAll;
    match r {
      case StatusRecord(b, aged) => PushScoped(l.statuses, b, cfg.limits, aged, StatusIn(scope));
      case DiffRecord(b, aged) => PushScoped(l.diffs, b, cfg.limits, aged, DiffIn(scope));
      case FillRecord(b) => OutAppend(l.out, Fills(b), scope);
      case MalformedRecord =>
    }
  }

  // ----- blocks

  lemma UpdatedScoped(s: State, b: Block, scope: CoinScope, ignoreSpot: bool)
    requires Updated(s, b, ignoreSpot).ok && (b.statuses.height > s.core.height ==> OneCoinPerOid(b))
    ensures Updated(ScopedState(s, scope), NarrowedBlock(b, scope), ignoreSpot) ==
            StateReply(ScopedState(Updated(s, b, ignoreSpot).state, scope), true)
  {
    NarrowKeepsHeader(b, scope);
    if b.statuses.height > s.core.height {
      BlockProjects(s.core, b, scope, ignoreSpot);
      hide ApplyBlock, OneCoinPerOid, NarrowedBlock, CoinScope.Contains;
      var r := ApplyBlock(s.core, b, ignoreSpot);
      assert InScope(s.dirty + r.touched, scope) == InScope(s.dirty, scope) + InScope(r.touched, scope);
    } else {
      hide ApplyDiffs, OneCoinPerOid, NarrowedBlock, CoinScope.Contains;
      assert s.dirty + {} == s.dirty && InScope(s.dirty, scope) + {} == InScope(s.dirty, scope);
    }
  }

  lemma NarrowedMore(bs: seq<Block>, b: Block, scope: CoinScope)
    ensures NarrowedAll(bs + [b], scope) == NarrowedAll(bs, scope) + [NarrowedBlock(b, scope)]
  {
    hide NarrowedBlock;
  }

  lemma RememberScoped(cfg: Config, l: Listener, b: Block, scope: CoinScope)
    ensures Remember(cfg, Scoped(l, scope), NarrowedBlock(b, scope)) == Scoped(Remember(cfg, l, b), scope)
  {
    NarrowKeepsHeader(b, scope);
    hide ScopedState, NarrowQueue, ScopedOut, NarrowedBlock;
    if l.cache.Some? {
      NarrowedMore(l.cache.value, b, scope);
    }
  }

  lemma AdvancedScoped(cfg: Config, l: Listener, b: Block, scope: CoinScope)
    requires l.live.Some? && Advanced(cfg, l, b).ok
    requires (b.statuses.height > l.live.value.core.height ==> OneCoinPerOid(b))
    ensures Advanced(cfg, Scoped(l, scope), NarrowedBlock(b, scope)) ==
              LReply(Scoped(Advanced(cfg, l, b).l, scope), true)
  {
    NarrowKeepsHeader(b, scope);
    hide Updated, NarrowQueue, NarrowedBlock, OneCoinPerOid, NarrowedAll, RestrictViews;
    var s := l.live.value;
    if b.statuses.height > s.core.height {
      UpdatedScoped(s, b, scope, cfg.ignoreSpot);
      var l1 := l.(live := Some(Updated(s, b, cfg.ignoreSpot).state));
      RememberScoped(cfg, l1, b, scope);
      RememberOut(cfg, l1, b);
      hide Remember;
      OutAppend(l1.out, L4(b), scope);
    }
  }

  lemma RememberOut(cfg: Config, l: Listener, b: Block)
    ensures Remember(cfg, l, b).out == l.out
  {
  }

  // ----- records

  /** Events of the block that this record would apply, if any, name one coin per order. */
  ghost predicate ClearRecord(cfg: Config, l: Listener, r: Record)
    requires QueuesAccounted(l)
  {
    var e := Enqueue(cfg, l, r);
    EnqueueAccounted(cfg, l, r);
    e.ok && e.l.live.Some? ==>
      var p := PopPair(e.l.statuses, e.l.diffs);
      p.pair.Some? ==> OneCoinPerOid(Block(p.pair.value.0, p.pair.value.1))
  }

  /** Receiving in scope is the projection of receiving. */
  lemma ReceiveScoped(cfg: Config, l: Listener, r: Record, scope: CoinScope)
    requires QueuesAccounted(l) && ClearRecord(cfg, l, r) && Receive(cfg, l, r).ok
    ensures QueuesAccounted(Scoped(l, scope))
    ensures Receive(cfg, Scoped(l, scope), ScopedRecord(r, scope)) == LReply(Scoped(Receive(cfg, l, r).l, scope), true)
  {
    hide Enqueue, Advanced, PopPair, Accounted, OneCoinPerOid, NarrowedBlock, NarrowedAll, ScopedState, ScopedOut,
         NarrowQueue;
    ScopedAccounted(l, scope);
    EnqueueScoped(cfg, l, r, scope);
    EnqueueAccounted(cfg, l, r);
    EnqueueAccounted(cfg, Scoped(l, scope), ScopedRecord(r, scope));
    var e := Enqueue(cfg, l, r);
    if e.l.live.Some? {
      PopScoped(e.l.statuses, e.l.diffs, scope);
      var p := PopPair(e.l.statuses, e.l.diffs);
      if p.pair.Some? {
        AdvancedScoped(cfg, e.l.(statuses := p.left, diffs := p.right), Block(p.pair.value.0, p.pair.value.1), scope);
      }
    }
  }

  function ScopedRecords(rs: seq<Record>, scope: CoinScope): (r: seq<Record>)
    ensures |r| == |rs| && forall i {:trigger r[i]} :: 0 <= i < |rs| ==> r[i] == ScopedRecord(rs[i], scope)
  {
    seq(|rs|, i requires 0 <= i < |rs| => ScopedRecord(rs[i], scope))
  }

  ghost predicate ClearRecords(cfg: Config, l: Listener, rs: seq<Record>)
    requires QueuesAccounted(l)
    decreases |rs|
  {
    rs != [] ==>
      && ClearRecord(cfg, l, rs[0])
      && (ReceiveAccounted(cfg, l, rs[0]); ClearRecords(cfg, Receive(cfg, l, rs[0]).l, rs[1..]))
  }

  lemma {:induction false} ReceiveAllScoped(cfg: Config, l: Listener, rs: seq<Record>, scope: CoinScope)
    requires QueuesAccounted(l) && ClearRecords(cfg, l, rs) && ReceiveAll(cfg, l, rs).ok
    ensures QueuesAccounted(Scoped(l, scope))
    ensures ReceiveAll(cfg, Scoped(l, scope), ScopedRecords(rs, scope)) ==
              LReply(Scoped(ReceiveAll(cfg, l, rs).l, scope), true)
    decreases |rs|
  {
    hide Receive, Accounted, Scoped, ScopedRecord, ClearRecord;
    ScopedAccounted(l, scope);
    if rs != [] {
      ReceiveScoped(cfg, l, rs[0], scope);
      ReceiveAccounted(cfg, l, rs[0]);
      ReceiveAllScoped(cfg, Receive(cfg, l, rs[0]).l, rs[1..], scope);
      assert ScopedRecords(rs, scope)[1..] == ScopedRecords(rs[1..], scope);
    }
  }

  // ----- views

  lemma RefreshedScoped(s: State, scope: CoinScope)
    ensures Refreshed(ScopedState(s, scope)) == ScopedState(Refreshed(s), scope)
  {
    hide ViewsOf, CoinScope.Contains;
    var d := DirtyViews(s.core.books, s.dirty);
    assert RestrictViews(s.cache + d, scope) == RestrictViews(s.cache, scope) + RestrictViews(d, scope);
    assert RestrictViews(d, scope) == DirtyViews(Restrict(s.core.books, scope), InScope(s.dirty, scope));
  }

  lemma PublishScoped(l: Listener, scope: CoinScope)
    ensures PublishViews(Scoped(l, scope)) == Scoped(PublishViews(l), scope)
  {
    hide Refreshed, NarrowQueue, NarrowedAll, CoinScope.Contains;
    if l.live.Some? && !l.live.value.snapped {
      var s := Snapped(l.live.value);
      RefreshedScoped(l.live.value, scope);
      OutAppend(l.out, L2(s.cache, s.core.time, s.core.height), scope);
    }
  }

  /** A chunk of records that the unrestricted listener takes without a fence. */
  lemma TurnScoped(cfg: Config, l: Listener, rs: seq<Record>, scope: CoinScope)
    requires QueuesAccounted(l) && ClearRecords(cfg, l, rs) && ReceiveAll(cfg, l, rs).ok
    ensures QueuesAccounted(Scoped(l, scope))
    ensures Turn(cfg, Scoped(l, scope), ScopedRecords(rs, scope)) == Scoped(Turn(cfg, l, rs), scope)
  {
    hide ReceiveAll, ClearRecords, Accounted, Scoped, PublishViews;
    ReceiveAllScoped(cfg, l, rs, scope);
    PublishScoped(ReceiveAll(cfg, l, rs).l, scope);
  }

  // ----- loading

  function InScopeSnaps(snaps: map<string, Snapshot>, scope: CoinScope): map<string, Snapshot> {
    map c | c in snaps && scope.Contains(c) :: snaps[c]
  }

  lemma FromNodeScoped(snaps: map<string, Snapshot>, height: nat, time: nat, scope: CoinScope)
    ensures FromNode(InScopeSnaps(snaps, scope), height, time) == ScopedState(FromNode(snaps, height, time), scope)
  {
    hide FromSnapshot, CoinScope.Contains;
    SnapshotsProject(snaps, scope);
  }

  /** Events of every block that loading would apply name one coin per order. */
  ghost predicate ClearLoad(cfg: Config, l: Listener, s: State)
    requires QueuesAccounted(l)
    decreases |l.statuses.items| + |l.diffs.items|
  {
    var p := PopPair(l.statuses, l.diffs);
    PopShrinks(l.statuses, l.diffs);
    p.pair.Some? ==>
      var b := Block(p.pair.value.0, p.pair.value.1);
      && OneCoinPerOid(b)
      && ClearLoad(cfg, l.(statuses := p.left, diffs := p.right), Updated(s, b, cfg.ignoreSpot).state)
  }

  /** A load that succeeds unrestricted succeeds in scope, as its projection. */
  lemma {:induction false} LoadScoped(cfg: Config, l: Listener, s: State, scope: CoinScope)
    requires QueuesAccounted(l) && l.live.None? && ClearLoad(cfg, l, s) && InitLoop(cfg, l, s).live.Some?
    ensures QueuesAccounted(Scoped(l, scope))
    ensures InitLoop(cfg, Scoped(l, scope), ScopedState(s, scope)) == Scoped(InitLoop(cfg, l, s), scope)
    decreases |l.statuses.items| + |l.diffs.items|
  {
    hide PopPair, Accounted, OneCoinPerOid, NarrowedBlock, NarrowedAll, ScopedState, ScopedOut, NarrowQueue, Updated;
    ScopedAccounted(l, scope);
    PopScoped(l.statuses, l.diffs, scope);
    PopShrinks(l.statuses, l.diffs);
    InitLoopStep(cfg, l, s);
    InitLoopStep(cfg, Scoped(l, scope), ScopedState(s, scope));
    var p := PopPair(l.statuses, l.diffs);
    if p.pair.Some? {
      var b := Block(p.pair.value.0, p.pair.value.1);
      UpdatedScoped(s, b, scope, cfg.ignoreSpot);
      LoadScoped(cfg, l.(statuses := p.left, diffs := p.right), Updated(s, b, cfg.ignoreSpot).state, scope);
    }
  }
}
