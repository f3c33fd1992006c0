/**
 The listener object. Its methods update the queues, the live state, the audit's block cache and
 the epoch in place; each is proved to act on the listener's value as its counterpart in
 Listeners, so everything proved about runs of those functions holds of this object.
 */
module ListenerObject {
  import opened Prelude
  import opened Snapshots
  import opened Blocks
  import opened Queues
  import opened BookState
  import L = Listeners

  class OrderBookListener {
    const cfg: L.Config
    var recoveryEpoch: nat
    var snapshotCacheBytes: nat
    var fetchedSnapshotCache: Option<seq<Block>>
    var orderBookState: OrderBookState?
    var lastFill: Option<nat>
    var orderStatusCache: BatchQueue<Status>
    var orderDiffCache: BatchQueue<Diff>
    var sent: seq<L.Msg>

    ghost function Repr(): set<object>
      reads this
    {
      if orderBookState == null then {this, orderStatusCache, orderDiffCache}
      else var st: OrderBookState := orderBookState; {this, orderStatusCache, orderDiffCache, st}
    }

    ghost function Live(): Option<State>
      reads this, orderBookState
    {
      if orderBookState == null then None else Some(orderBookState.Value())
    }

    ghost function Value(): L.Listener
      reads Repr()
    {
      L.Listener(recoveryEpoch, fetchedSnapshotCache, snapshotCacheBytes, Live(), lastFill,
                 orderStatusCache.Value(), orderDiffCache.Value(), sent)
    }

    ghost predicate Valid()
      reads Repr()
    {
      && orderStatusCache as object != orderDiffCache as object
      && (orderBookState != null ==> orderBookState.ignoreSpot == cfg.ignoreSpot)
      && (fetchedSnapshotCache.Some? ==> AllPaired(fetchedSnapshotCache.value))
      && L.QueuesAccounted(Value())
    }

    constructor (cfg: L.Config)
      ensures Valid() && fresh(Repr()) && this.cfg == cfg && Value() == L.START
    {
      this.cfg := cfg;
      recoveryEpoch, snapshotCacheBytes, fetchedSnapshotCache, orderBookState := 0, 0, None, null;
      lastFill, sent := None, [];
      var s := new BatchQueue<Status>();
      var d := new BatchQueue<Diff>();
      orderStatusCache, orderDiffCache := s, d;
    }

    method Fence()
      requires Valid()
      modifies this
      ensures Valid() && fresh(Repr() - old(Repr())) && Value() == L.Fence(old(Value()))
    {
      recoveryEpoch := recoveryEpoch + 1;
      orderBookState := null;
      var s := new BatchQueue<Status>();
      var d := new BatchQueue<Diff>();
      orderStatusCache, orderDiffCache := s, d;
      fetchedSnapshotCache, snapshotCacheBytes := None, 0;
      sent := sent + [L.Gap];
    }

    method BeginCaching()
      requires Valid()
      modifies this
      ensures Valid() && Repr() == old(Repr()) && Value() == L.BeginCaching(old(Value()))
    {
      snapshotCacheBytes, fetchedSnapshotCache := 0, Some([]);
    }

    /** The clone is a copy: later changes to the live state do not reach it. */
    method CloneState() returns (c: OrderBookState?)
      requires Valid()
      ensures c == null <==> orderBookState == null
      ensures c != null ==> fresh(c) && c.ignoreSpot == cfg.ignoreSpot && Live() == Some(c.Value())
    {
      if orderBookState == null {
        c := null;
      } else {
        c := new OrderBookState.Clone(orderBookState);
      }
    }

    method TakeCache() returns (blocks: seq<Block>)
      requires Valid()
      modifies this
      ensures Valid() && Repr() == old(Repr()) && Value() == L.TakeCache(old(Value()))
      ensures AllPaired(blocks)
      ensures blocks == if old(fetchedSnapshotCache).Some? then old(fetchedSnapshotCache).value else []
    {
      blocks := if fetchedSnapshotCache.Some? then fetchedSnapshotCache.value else [];
      snapshotCacheBytes, fetchedSnapshotCache := 0, None;
    }

    /** The audit has been open for too long. */
    method ExpireCache()
      requires Valid()
      modifies this
      ensures Valid() && Repr() == old(Repr()) && Value() == L.Invalidate(old(Value()))
    {
      recoveryEpoch := recoveryEpoch + 1;
      var _ := TakeCache();
    }

    // ----- receiving

    method ApplyPair(b: Block) returns (ok: bool)
      requires Valid() && orderBookState != null && Paired(b)
      modifies this, orderBookState
      ensures Valid() && Repr() == old(Repr())
      ensures L.LReply(Value(), ok) == L.Advanced(cfg, old(Value()), b)
    {
      hide Updated, Accounted;
      if b.statuses.height <= orderBookState.height {
        return true;
      }
      var applied := orderBookState.ApplyUpdates(b);
      var pairBytes := b.statuses.wire + b.diffs.wire;
      if !applied || pairBytes > USIZE_MAX {
        return false;
      }
      var nextBytes := snapshotCacheBytes + pairBytes;
      if fetchedSnapshotCache.Some?
         && (|fetchedSnapshotCache.value| >= cfg.limits.heights || nextBytes > USIZE_MAX
            || nextBytes > cfg.limits.bytes)
      {
        recoveryEpoch := recoveryEpoch + 1;
        fetchedSnapshotCache, snapshotCacheBytes := None, 0;
      }
      if fetchedSnapshotCache.Some? {
        snapshotCacheBytes := nextBytes;
        fetchedSnapshotCache := Some(fetchedSnapshotCache.value + [b]);
      }
      sent := sent + [L.L4(b)];
      ok := true;
    }

    method DrainPair() returns (ok: bool)
      requires Valid() && orderBookState != null
      modifies Repr()
      ensures Valid() && Repr() == old(Repr())
      ensures L.LReply(Value(), ok) == L.Drain(cfg, old(Value()))
    {
      hide Accounted, L.Advanced;
      var pair := PopCache(orderStatusCache, orderDiffCache);
      assert Valid();
      if pair.None? {
        return true;
      }
      ok := ApplyPair(Block(pair.value.0, pair.value.1));
    }

    method Enqueue(r: L.Record) returns (ok: bool)
      requires Valid()
      modifies this, orderStatusCache, orderDiffCache
      ensures Valid() && Repr() == old(Repr())
      ensures L.LReply(Value(), ok) == L.Enqueue(cfg, old(Value()), r)
    {
      hide Push, Accounted;
      L.EnqueueAccounted(cfg, Value(), r);
      match r {
        case StatusRecord(b, aged) =>
          var _, refused := orderStatusCache.PushBatch(b, cfg.limits, aged);
          ok := !refused;
        case DiffRecord(b, aged) =>
          var _, refused := orderDiffCache.PushBatch(b, cfg.limits, aged);
          ok := !refused;
        case FillRecord(f) =>
          if lastFill.None? || lastFill.value < f.height {
            lastFill := Some(f.height);
            sent := sent + [L.Fills(f)];
          }
          ok := true;
        case MalformedRecord =>
          ok := false;
      }
    }

    method ReceiveBatch(r: L.Record) returns (ok: bool)
      requires Valid()
      modifies Repr()
      ensures Valid() && Repr() == old(Repr())
      ensures L.LReply(Value(), ok) == L.Receive(cfg, old(Value()), r)
    {
      hide Accounted, L.Enqueue, L.Drain;
      L.EnqueueAccounted(cfg, Value(), r);
      ok := Enqueue(r);
      if ok && orderBookState != null {
        ok := DrainPair();
      }
    }

    method PublishL2()
      requires Valid()
      modifies Repr()
      ensures Valid() && Repr() == old(Repr()) && Value() == L.PublishViews(old(Value()))
    {
      hide Accounted, Refreshed;
      if orderBookState != null {
        var v := orderBookState.L2Snapshots();
        if v.Some? {
          sent := sent + [L.L2(v.value, orderBookState.time, orderBookState.height)];
        }
      }
    }

    /** Receives records until one fails; a failed batch drops the live state. */
    method ReceiveRecords(rs: seq<L.Record>) returns (ok: bool)
      requires Valid()
      modifies Repr()
      ensures Valid() && fresh(Repr() - old(Repr()))
      ensures var q := L.ReceiveAll(cfg, old(Value()), rs);
              && ok == q.ok && Value() == (if ok then q.l else q.l.(live := Value().live))
    {
      hide Accounted, L.Receive;
      for i := 0 to |rs|
        invariant Valid() && Repr() == old(Repr())
        invariant L.ReceiveAll(cfg, Value(), rs[i..]) == L.ReceiveAll(cfg, old(Value()), rs)
      {
        assert rs[i..][0] == rs[i] && rs[i..][1..] == rs[i + 1..];
        ok := ReceiveBatch(rs[i]);
        if !ok {
          orderBookState := null;
          return false;
        }
      }
      ok := true;
    }

    /** A chunk of records and, if any of it fails, the fence, under one lock. */
    method Turn(rs: seq<L.Record>)
      requires Valid()
      modifies Repr()
      ensures Valid() && fresh(Repr() - old(Repr())) && Value() == L.Turn(cfg, old(Value()), rs)
    {
      hide Accounted, L.ReceiveAll, L.PublishViews;
      var ok := ReceiveRecords(rs);
      if ok {
        PublishL2();
      } else {
        Fence();
      }
    }

    // ----- snapshots

    method InitFromSnapshot(snaps: map<string, Snapshot>, height: nat)
      requires Valid()
      modifies Repr()
      ensures Valid() && fresh(Repr() - old(Repr()))
      ensures Value() == L.InitLoop(cfg, old(Value()), FromNode(snaps, height, 0))
    {
      hide Accounted, Updated, FromNode, PopPair;
      var book := new OrderBookState.FromSnapshot(snaps, height, 0, cfg.ignoreSpot);
      ghost var goal := L.InitLoop(cfg, Value(), book.Value());
      var retry, done := false, false;
      while !done
        invariant Valid() && orderBookState == old(orderBookState) && book.ignoreSpot == cfg.ignoreSpot && fresh(book)
        invariant orderStatusCache == old(orderStatusCache) && orderDiffCache == old(orderDiffCache)
        invariant !done ==> !retry
        invariant goal ==
                  if !done then L.InitLoop(cfg, Value(), book.Value())
                  else if retry then Value() else Value().(live := Some(book.Value()))
        decreases !done, |orderStatusCache.deque| + |orderDiffCache.deque|
      {
        L.PopShrinks(orderStatusCache.Value(), orderDiffCache.Value());
        L.InitLoopStep(cfg, Value(), book.Value());
        var pair := PopCache(orderStatusCache, orderDiffCache);
        if pair.None? {
          done := true;
        } else {
          var applied := book.ApplyUpdates(Block(pair.value.0, pair.value.1));
          if !applied {
            retry, done := true, true;
          }
        }
      }
      if !retry {
        orderBookState := book;
      }
    }

    /** Replays remembered blocks on the clone up to the snapshot's height. */
    method CatchUp(clone: OrderBookState, height: nat, cache: seq<Block>) returns (c: L.Caught)
      requires clone.ignoreSpot == cfg.ignoreSpot && AllPaired(cache)
      modifies clone
      ensures c == L.CatchUp(old(clone.Value()), height, cache, cfg.ignoreSpot)
      ensures c.Reached? ==> c.state == clone.Value() && AllPaired(c.rest)
    {
      hide Updated;
      var rest := cache;
      while clone.height < height
        invariant AllPaired(rest)
        invariant L.CatchUp(clone.Value(), height, rest, cfg.ignoreSpot) ==
                    L.CatchUp(old(clone.Value()), height, cache, cfg.ignoreSpot)
        decreases |rest|
      {
        if rest == [] {
          return L.Short;
        }
        var ok := clone.ApplyUpdates(rest[0]);
        if !ok {
          return L.Broken;
        }
        rest := rest[1..];
      }
      c := L.Reached(State(Core(clone.books, clone.height, clone.time), clone.snapped, clone.l2Cache, clone.dirtyCoins),
                     rest);
    }

    method ReplayOn(book: OrderBookState, blocks: seq<Block>) returns (ok: bool)
      requires book.ignoreSpot == cfg.ignoreSpot && AllPaired(blocks)
      modifies book
      ensures StateReply(book.Value(), ok) == L.UpdatedAll(old(book.Value()), blocks, cfg.ignoreSpot)
    {
      hide Updated;
      var rest := blocks;
      while rest != []
        invariant AllPaired(rest)
        invariant L.UpdatedAll(book.Value(), rest, cfg.ignoreSpot) ==
                    L.UpdatedAll(old(book.Value()), blocks, cfg.ignoreSpot)
        decreases |rest|
      {
        ok := book.ApplyUpdates(rest[0]);
        if !ok {
          return false;
        }
        rest := rest[1..];
      }
      ok := true;
    }

    method CommitState(book: OrderBookState, benign: bool)
      requires Valid() && book.ignoreSpot == cfg.ignoreSpot && book !in Repr()
      modifies Repr(), book
      ensures Valid() && Repr() <= old(Repr()) + {book} && Value() == L.Commit(old(Value()), old(book.Value()), benign)
    {
      hide Accounted, L.PublishViews;
      orderBookState := book;
      if benign {
        PublishL2();
      } else {
        sent := sent + [L.Gap];
      }
    }

    method ReconcileSnapshot(clone: OrderBookState?, snaps: map<string, Snapshot>, height: nat,
                             cache: seq<Block>) returns (ok: bool)
      requires Valid() && AllPaired(cache)
      requires clone != null ==> clone !in Repr() && clone.ignoreSpot == cfg.ignoreSpot
      modifies Repr(), clone
      ensures Valid() && fresh(Repr() - old(Repr()))
      ensures L.LReply(Value(), ok) ==
              L.Reconcile(cfg, old(Value()), old(if clone == null then None else Some(clone.Value())), snaps, height,
                          cache)
    {
      hide Accounted, L.CatchUp, L.UpdatedAll, L.InitLoop, L.Commit, L.Validate, FromNode;
      if clone == null {
        InitFromSnapshot(snaps, height);
        return true;
      }
      var c := CatchUp(clone, height, cache);
      if !c.Reached? || clone.height > height {
        return !c.Broken?;
      }
      var v := ValidateSnapshotConsistency(L.ToSnapshots(clone.books), snaps, cfg.ignoreSpot);
      if v == L.Equal {
        return true;
      }
      var time := if v == L.EmptyBooksAdded then clone.time else 0;
      var recovered := new OrderBookState.FromSnapshot(snaps, height, time, cfg.ignoreSpot);
      ok := ReplayOn(recovered, c.rest);
      if ok {
        CommitState(recovered, v == L.EmptyBooksAdded);
      }
    }

    method FinishSnapshot(epoch: nat, clone: OrderBookState?, snaps: map<string, Snapshot>,
                          height: nat) returns (ok: bool)
      requires Valid()
      requires clone != null ==> clone !in Repr() && clone.ignoreSpot == cfg.ignoreSpot
      modifies Repr(), clone
      ensures Valid() && fresh(Repr() - old(Repr()))
      ensures L.LReply(Value(), ok) ==
              L.Finish(cfg, old(Value()), epoch, old(if clone == null then None else Some(clone.Value())), snaps,
                       height)
    {
      hide Accounted, L.Reconcile;
      if recoveryEpoch != epoch {
        return true;
      }
      var cache := TakeCache();
      ok := ReconcileSnapshot(clone, snaps, height, cache);
    }
  }

  ghost predicate AllPaired(blocks: seq<Block>) {
    forall i :: 0 <= i < |blocks| ==> Paired(blocks[i])
  }

  /** The coin's entry in one map against the other's, a missing one counting as empty. */
  ghost predicate Agrees(have: map<string, Snapshot>, want: map<string, Snapshot>, c: string)
    requires c in have
  {
    if c in want then have[c] == want[c] else L.EmptySnapshot(have[c])
  }

  /** Crosses off the coins both sides have; stops at the first that differs. */
  method CrossOff(have: map<string, Snapshot>, want: map<string, Snapshot>) returns (ok: bool,
                  left: map<string, Snapshot>)
    ensures ok <==> forall c :: c in have ==> Agrees(have, want, c)
    ensures ok ==> left == map c | c in want && c !in have :: want[c]
  {
    hide L.EmptySnapshot;
    left := want;
    var todo := have.Keys;
    while todo != {}
      invariant todo <= have.Keys
      invariant left == map c | c in want && (c !in have || c in todo) :: want[c]
      invariant forall c :: c in have && c !in todo ==> Agrees(have, want, c)
      decreases |todo|
    {
      var c :| c in todo;
      todo := todo - {c};
      if c in left {
        if have[c] != left[c] {
          assert !Agrees(have, want, c);
          return false, left;
        }
        left := left - {c};
      } else if !L.EmptySnapshot(have[c]) {
        assert !Agrees(have, want, c);
        return false, left;
      }
    }
    ok := true;
  }

  method AllEmpty(left: map<string, Snapshot>) returns (ok: bool)
    ensures ok <==> forall c :: c in left ==> L.EmptySnapshot(left[c])
  {
    var rest := left.Keys;
    while rest != {}
      invariant rest <= left.Keys
      invariant forall c :: c in left && c !in rest ==> L.EmptySnapshot(left[c])
      decreases |rest|
    {
      var c :| c in rest;
      rest := rest - {c};
      if !L.EmptySnapshot(left[c]) {
        return false;
      }
    }
    ok := true;
  }

  function Kept(m: map<string, Snapshot>, ignoreSpot: bool): map<string, Snapshot> {
    map c | c in m && !Ignored(c, ignoreSpot) :: m[c]
  }

  /** Compares coin by coin, leaving ignored coins out; what only the expectation has must be empty. */
  method ValidateSnapshotConsistency(have: map<string, Snapshot>, want: map<string, Snapshot>,
                                     ignoreSpot: bool) returns (v: L.Verdict)
    ensures v == L.Validate(have, want, ignoreSpot)
  {
    hide Ignored, L.EmptySnapshot, L.Validate;
    var x, y := Kept(have, ignoreSpot), Kept(want, ignoreSpot);
    var ok, left := CrossOff(x, y);
    var empty := AllEmpty(left);
    ValidateKept(have, want, ignoreSpot);
    if !ok || !empty {
      return L.Diverged;
    }
    v := if left == map[] then L.Equal else L.EmptyBooksAdded;
  }

  lemma ValidateKept(have: map<string, Snapshot>, want: map<string, Snapshot>, ignoreSpot: bool)
    ensures var x, y := Kept(have, ignoreSpot), Kept(want, ignoreSpot);
            var left := map c | c in y && c !in x :: y[c];
            var agree := (forall c :: c in x ==> Agrees(x, y, c))
              && (forall c :: c in left ==> L.EmptySnapshot(left[c]));
            L.Validate(have, want, ignoreSpot) ==
              if !agree then L.Diverged else if left == map[] then L.Equal else L.EmptyBooksAdded
  {
    hide Ignored, L.EmptySnapshot;
    var x, y := Kept(have, ignoreSpot), Kept(want, ignoreSpot);
    var left := map c | c in y && c !in x :: y[c];
    assert forall c :: c in left <==> c in want && !Ignored(c, ignoreSpot) && c !in have;
    if left != map[] {
      var c :| c in left;
      assert c in want && c !in have;
    }
    forall c | c in have && !Ignored(c, ignoreSpot)
      ensures Agrees(x, y, c) <==> if c in want then have[c] == want[c] else L.EmptySnapshot(have[c])
    {
    }
  }
}
