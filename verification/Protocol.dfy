/**
 The recovery protocol: the listener together with the one snapshot task that may be in flight.
 A run is any sequence of enabled events. `Inv` holds in every reachable state, with no
 assumption on what the node sends.
 */
module Protocol {
  import opened Prelude
  import opened Snapshots
  import opened Blocks
  import opened Replays
  import opened Queues
  import opened BookState
  import opened Listeners
  import opened Audit

  /** The snapshot owner: none, one holding the epoch and clone it captured, or one that has returned. */
  datatype Task = Idle | Running(epoch: nat, clone: Option<State>) | Done(ok: bool)

  datatype Sys = Sys(l: Listener, task: Task)

  datatype Event =
    | TurnEv(records: seq<Record>)     // a chunk of source records, processed under one lock
    | FenceEv                          // a gap found outside record processing
    | ExpireEv                         // the audit's block cache is over age
    | BeginEv                          // the snapshot task captures its baseline
    | FinishEv(snaps: map<string, Snapshot>, height: nat)  // the node's snapshot arrives
    | FailEv                           // the request or its parsing fails
    | CrashEv                          // the snapshot owner dies
    | JoinEv                           // the main loop collects the finished task
    | ReadEv                           // a subscriber asks for the current views

  predicate Enabled(s: Sys, e: Event) {
    match e
    case ExpireEv => s.l.cache.Some?
    case BeginEv => s.task.Idle?
    case FinishEv(_, _) => s.task.Running?
    case FailEv => s.task.Running?
    case CrashEv => s.task.Running?
    case JoinEv => s.task.Done?
    case _ => true
  }

  ghost function Next(cfg: Config, s: Sys, e: Event): Sys
    requires Enabled(s, e) && QueuesAccounted(s.l)
  {
    match e
    case TurnEv(rs) => s.(l := Turn(cfg, s.l, rs))
    case FenceEv => s.(l := Fence(s.l))
    case ExpireEv => s.(l := Invalidate(s.l))
    case BeginEv => Sys(BeginCaching(s.l), Running(s.l.epoch, s.l.live))
    case FinishEv(snaps, height) =>
      var r := Finish(cfg, s.l, s.task.epoch, s.task.clone, snaps, height);
      Sys(r.l, Done(r.ok))
    case FailEv => Sys(TakeCache(s.l), Done(true))
    case CrashEv => Sys(Fence(s.l), Idle)
    case JoinEv => Sys(if s.task.ok then s.l else Fence(s.l), Idle)
    case ReadEv => s.(l := Read(s.l))
  }

  const INIT := Sys(START, Idle)

  // ----- broadcast heights

  /** Height of the latest L4 update since the last gap. */
  function LastL4(out: seq<Msg>): Option<nat> {
    if out == [] then None
    else
      match out[|out| - 1]
      case Gap => None
      case L4(b) => Some(b.statuses.height)
      case _ => LastL4(out[..|out| - 1])
  }

  /** Every L4 update continues the previous one since the last gap by exactly one height. */
  ghost predicate Chained(out: seq<Msg>) {
    forall i :: 0 <= i < |out| && out[i].L4? ==>
      LastL4(out[..i]) == None || LastL4(out[..i]) == Some(out[i].block.statuses.height - 1)
  }

  lemma LastL4Append(out: seq<Msg>, m: Msg)
    ensures LastL4(out + [m]) ==
            match m { case Gap => None case L4(b) => Some(b.statuses.height) case _ => LastL4(out) }
  {
    assert (out + [m])[..|out|] == out;
  }

  lemma ChainedAppend(out: seq<Msg>, m: Msg)
    requires Chained(out)
    requires m.L4? ==> LastL4(out) == None || LastL4(out) == Some(m.block.statuses.height - 1)
    ensures Chained(out + [m])
  {
    hide LastL4;
    var out' := out + [m];
    forall i | 0 <= i < |out'| && out'[i].L4?
      ensures LastL4(out'[..i]) == None || LastL4(out'[..i]) == Some(out'[i].block.statuses.height - 1)
    {
      if i < |out| {
        assert out'[..i] == out[..i];
      } else {
        assert out'[..i] == out;
      }
    }
  }

  /** In plain words: two L4 updates with neither a gap nor another update between them have consecutive heights. */
  lemma {:induction false} ChainedConsecutive(out: seq<Msg>, i: nat, j: nat)
    requires Chained(out) && i < j < |out| && out[i].L4? && out[j].L4?
    requires forall k :: i < k < j ==> !out[k].L4? && !out[k].Gap?
    ensures out[j].block.statuses.height == out[i].block.statuses.height + 1
  {
    LastL4Between(out, i, j);
  }

  lemma {:induction false} LastL4Between(out: seq<Msg>, i: nat, j: nat)
    requires i < j <= |out| && out[i].L4?
    requires forall k :: i < k < j ==> !out[k].L4? && !out[k].Gap?
    ensures LastL4(out[..j]) == Some(out[i].block.statuses.height)
    decreases j - i
  {
    assert out[..j][..j - 1] == out[..j - 1];
    if i + 1 < j {
      LastL4Between(out, i, j - 1);
    }
  }

  ghost predicate Published(l: Listener) {
    && Chained(l.out)
    && (LastL4(l.out).Some? ==> l.live.Some? && l.live.value.core.height == LastL4(l.out).value)
  }

  // ----- the invariant

  function CachedBytes(s: seq<Block>): nat {
    if s == [] then 0 else CachedBytes(s[..|s| - 1]) + BlockBytes(s[|s| - 1])
  }

  ghost predicate QueuesOk(cfg: Config, l: Listener) {
    && QueueOk(l.statuses, cfg.limits) && QueueOk(l.diffs, cfg.limits)
    && (l.live.Some? ==> l.statuses.items == [] || l.diffs.items == [])
  }

  /** The audit's block cache is accounted for and within its limits. */
  ghost predicate CacheOk(cfg: Config, l: Listener) {
    if l.cache.None? then l.cacheBytes == 0
    else l.cacheBytes == CachedBytes(l.cache.value) <= cfg.limits.bytes && |l.cache.value| <= cfg.limits.heights
  }

  /**
   While the epoch is the one the attempt captured, blocks are being remembered, and replaying them
   on the captured clone gives exactly the live books, height and time. In any other epoch, or
   without a task, nothing is remembered.
   */
  ghost predicate AuditInv(cfg: Config, s: Sys) {
    if s.task.Running? && s.task.epoch == s.l.epoch then
      && s.l.cache.Some?
      && s.task.clone.Some? == s.l.live.Some?
      && (s.l.live.None? ==> s.l.cache.value == [])
      && (s.l.live.Some? ==>
            Replay(s.task.clone.value.core, s.l.cache.value, cfg.ignoreSpot) == Some(s.l.live.value.core))
    else s.l.cache.None? && (s.task.Running? ==> s.task.epoch < s.l.epoch)
  }

  ghost predicate Inv(cfg: Config, s: Sys) {
    QueuesOk(cfg, s.l) && CacheOk(cfg, s.l) && Published(s.l) && AuditInv(cfg, s)
  }

  lemma InitInv(cfg: Config)
    ensures Inv(cfg, INIT)
  {
  }

  // ----- fencing

  lemma FenceInv(cfg: Config, l: Listener, task: Task)
    requires Chained(l.out) && (task.Running? ==> task.epoch <= l.epoch)
    ensures Inv(cfg, Sys(Fence(l), task))
  {
    ChainedAppend(l.out, Gap);
    LastL4Append(l.out, Gap);
    hide Chained, LastL4;
  }

  lemma TaskEpoch(cfg: Config, s: Sys)
    requires Inv(cfg, s)
    ensures s.task.Running? ==> s.task.epoch <= s.l.epoch
    ensures QueuesAccounted(s.l) && Chained(s.l.out)
  {
    hide Replay, Chained;
  }

  // ----- receiving

  /** After a push at most one batch sits in front of a non-empty other queue. */
  ghost predicate QueuesPushed(cfg: Config, l: Listener) {
    && QueueOk(l.statuses, cfg.limits) && QueueOk(l.diffs, cfg.limits)
    && (l.live.Some? ==> |l.statuses.items| <= 1 || |l.diffs.items| <= 1)
    && (l.live.Some? ==>
          l.statuses.items == [] || l.diffs.items == [] || |l.statuses.items| == 1 || |l.diffs.items| == 1)
  }

  lemma EnqueueQueues(cfg: Config, l: Listener, r: Record)
    requires QueuesOk(cfg, l)
    ensures QueuesPushed(cfg, Enqueue(cfg, l, r).l)
  {
    hide QueueOk;
    match r {
      case StatusRecord(b, aged) =>
        if Push(l.statuses, b, cfg.limits, aged).Accepted? {
          PushOk(l.statuses, b, cfg.limits, aged);
        }
      case DiffRecord(b, aged) =>
        if Push(l.diffs, b, cfg.limits, aged).Accepted? {
          PushOk(l.diffs, b, cfg.limits, aged);
        }
      case _ =>
    }
  }

  lemma DrainQueues(cfg: Config, l: Listener)
    requires QueuesPushed(cfg, l) && l.live.Some?
    ensures QueuesAccounted(l)
    ensures var p := PopPair(l.statuses, l.diffs);
            && QueueOk(p.left, cfg.limits) && QueueOk(p.right, cfg.limits)
            && (p.left.items == [] || p.right.items == [])
  {
    PopPairOk(l.statuses, l.diffs, cfg.limits);
  }

  /** Everything but the queues. */
  ghost predicate RestInv(cfg: Config, s: Sys) {
    CacheOk(cfg, s.l) && Published(s.l) && AuditInv(cfg, s)
  }

  lemma EnqueueRest(cfg: Config, s: Sys, r: Record)
    requires RestInv(cfg, s)
    ensures RestInv(cfg, s.(l := Enqueue(cfg, s.l, r).l))
    ensures Enqueue(cfg, s.l, r).l.live == s.l.live && Enqueue(cfg, s.l, r).l.epoch == s.l.epoch
  {
    hide Replay, LastL4, Push;
    if r.FillRecord? {
      ChainedAppend(s.l.out, Fills(r.f));
      LastL4Append(s.l.out, Fills(r.f));
    }
    hide Chained;
  }

  /** A block accepted past the live height is the next one. */
  lemma AcceptedIsNext(c: Core, b: Block, ignoreSpot: bool)
    requires b.statuses.height > c.height && ApplyBlock(c, b, ignoreSpot).ok
    ensures b.statuses.height == c.height + 1 && ApplyBlock(c, b, ignoreSpot).core.height == c.height + 1
    ensures ApplyBlock(c, b, ignoreSpot).core.time == b.statuses.time
  {
    hide ApplyDiffs;
  }

  lemma RememberKeeps(cfg: Config, s: Sys, b: Block, c: Core)
    requires AuditInv(cfg, s) && CacheOk(cfg, s.l) && s.l.live.Some?
    requires b.statuses.height == s.l.live.value.core.height + 1
    requires var r := ApplyBlock(s.l.live.value.core, b, cfg.ignoreSpot); r.ok && r.core == c
    ensures forall st: State, out :: st.core == c ==>
              var l := Remember(cfg, s.l.(live := Some(st)), b).(out := out);
              AuditInv(cfg, s.(l := l)) && CacheOk(cfg, l) && l.live == Some(st)
  {
    hide ApplyBlock;
    if s.l.cache.Some? {
      var blocks := s.l.cache.value;
      assert (blocks + [b])[..|blocks|] == blocks;
      if s.task.Running? && s.task.epoch == s.l.epoch {
        ReplayConcat(s.task.clone.value.core, blocks, [b], cfg.ignoreSpot);
        ReplayOne(s.l.live.value.core, b, cfg.ignoreSpot);
      }
    }
    hide Replay;
  }

  lemma AdvancedKeeps(cfg: Config, s: Sys, b: Block)
    requires RestInv(cfg, s) && s.l.live.Some?
    ensures var r := Advanced(cfg, s.l, b);
            && r.l.statuses == s.l.statuses && r.l.diffs == s.l.diffs && r.l.live.Some?
            && (r.ok ==> RestInv(cfg, s.(l := r.l)))
            && (!r.ok ==> r.l.out == s.l.out && r.l.epoch == s.l.epoch)
  {
    hide Replay, Chained, LastL4, ApplyBlock, CachedBytes;
    var c := s.l.live.value.core;
    var r := Advanced(cfg, s.l, b);
    if r.ok && b.statuses.height > c.height {
      AcceptedIsNext(c, b, cfg.ignoreSpot);
      var u := Updated(s.l.live.value, b, cfg.ignoreSpot);
      RememberKeeps(cfg, s, b, u.state.core);
      ChainedAppend(s.l.out, L4(b));
      LastL4Append(s.l.out, L4(b));
      hide AuditInv;
      assert r.l == Remember(cfg, s.l.(live := Some(u.state)), b).(out := s.l.out + [L4(b)]);
    }
  }

  lemma ReceiveKeeps(cfg: Config, s: Sys, r: Record)
    requires Inv(cfg, s)
    ensures QueuesAccounted(s.l)
    ensures var q := Receive(cfg, s.l, r);
            && (q.ok ==> Inv(cfg, s.(l := q.l)))
            && (!q.ok ==> Chained(q.l.out) && (s.task.Running? ==> s.task.epoch <= q.l.epoch))
  {
    hide QueueOk, CacheOk, Published, AuditInv, PopPair, Push, Updated, Advanced, Enqueue;
    TaskEpoch(cfg, s);
    EnqueueQueues(cfg, s.l, r);
    EnqueueRest(cfg, s, r);
    EnqueueAccounted(cfg, s.l, r);
    var e := Enqueue(cfg, s.l, r);
    var s1 := s.(l := e.l);
    RestChained(cfg, s1);
    if e.ok && e.l.live.Some? {
      DrainQueues(cfg, e.l);
      var p := PopPair(e.l.statuses, e.l.diffs);
      var l2 := e.l.(statuses := p.left, diffs := p.right);
      RestIgnoresQueues(cfg, s1, l2);
      if p.pair.Some? {
        AdvancedKeeps(cfg, s1.(l := l2), Block(p.pair.value.0, p.pair.value.1));
      }
    } else if e.ok {
      NotReadyQueues(cfg, e.l);
    }
  }

  lemma RestChained(cfg: Config, s: Sys)
    requires RestInv(cfg, s)
    ensures Chained(s.l.out)
  {
    hide Replay;
  }

  lemma RestIgnoresQueues(cfg: Config, s: Sys, l: Listener)
    requires RestInv(cfg, s) && l == s.l.(statuses := l.statuses, diffs := l.diffs)
    ensures RestInv(cfg, s.(l := l))
  {
    hide Replay, Chained, LastL4;
  }

  lemma NotReadyQueues(cfg: Config, l: Listener)
    requires QueuesPushed(cfg, l) && l.live.None?
    ensures QueuesOk(cfg, l)
  {
  }

  lemma {:induction false} ReceiveAllKeeps(cfg: Config, s: Sys, rs: seq<Record>)
    requires Inv(cfg, s)
    ensures QueuesAccounted(s.l)
    ensures var q := ReceiveAll(cfg, s.l, rs);
            && (q.ok ==> Inv(cfg, s.(l := q.l)))
            && (!q.ok ==> Chained(q.l.out) && (s.task.Running? ==> s.task.epoch <= q.l.epoch))
    decreases |rs|
  {
    hide Inv, Receive, Chained;
    TaskEpoch(cfg, s);
    if rs != [] {
      ReceiveKeeps(cfg, s, rs[0]);
      var q := Receive(cfg, s.l, rs[0]);
      if q.ok {
        ReceiveAllKeeps(cfg, s.(l := q.l), rs[1..]);
      }
    }
  }

  /** Publishing views changes neither books nor audit. */
  lemma PublishKeeps(cfg: Config, s: Sys)
    requires Inv(cfg, s)
    ensures Inv(cfg, s.(l := PublishViews(s.l)))
  {
    hide Replay, QueueOk, LastL4, Refreshed, CachedBytes;
    if s.l.live.Some? && !s.l.live.value.snapped {
      var st := Snapped(s.l.live.value);
      SnappedCore(s.l.live.value);
      ChainedAppend(s.l.out, L2(st.cache, st.core.time, st.core.height));
      LastL4Append(s.l.out, L2(st.cache, st.core.time, st.core.height));
    }
    hide Chained;
  }

  lemma SnappedCore(s: State)
    ensures Snapped(s).core == s.core && Refreshed(s).core == s.core
  {
  }

  lemma TurnKeeps(cfg: Config, s: Sys, rs: seq<Record>)
    requires Inv(cfg, s)
    ensures QueuesAccounted(s.l) && Inv(cfg, s.(l := Turn(cfg, s.l, rs)))
  {
    hide Inv, ReceiveAll, Chained, PublishViews, Fence;
    ReceiveAllKeeps(cfg, s, rs);
    var q := ReceiveAll(cfg, s.l, rs);
    if q.ok {
      PublishKeeps(cfg, s.(l := q.l));
    } else {
      FenceInv(cfg, q.l, s.task);
    }
  }

  // ----- finishing an audit

  lemma {:induction false} InitLoopKeeps(cfg: Config, l: Listener, st: State)
    requires QueuesOk(cfg, l) && l.live.None?
    ensures QueuesAccounted(l)
    ensures var r := InitLoop(cfg, l, st);
            && QueuesOk(cfg, r)
            && r == l.(live := r.live, statuses := r.statuses, diffs := r.diffs)
    decreases |l.statuses.items| + |l.diffs.items|
  {
    hide Updated, PopPair, QueueOk;
    OkAccounted(cfg, l);
    PopPairOk(l.statuses, l.diffs, cfg.limits);
    PopShrinks(l.statuses, l.diffs);
    var p := PopPair(l.statuses, l.diffs);
    if p.pair.Some? {
      var u := Updated(st, Block(p.pair.value.0, p.pair.value.1), cfg.ignoreSpot);
      if u.ok {
        InitLoopKeeps(cfg, l.(statuses := p.left, diffs := p.right), u.state);
      }
    }
  }

  lemma OkAccounted(cfg: Config, l: Listener)
    requires QueuesOk(cfg, l)
    ensures QueuesAccounted(l)
  {
  }

  /** What the audit in flight would conclude from this snapshot, if it reaches its height. */
  ghost function AuditVerdict(cfg: Config, s: Sys, snaps: map<string, Snapshot>, height: nat): Option<Verdict>
    requires s.task.Running? && s.task.clone.Some? && s.l.cache.Some?
  {
    match CatchUp(s.task.clone.value, height, s.l.cache.value, cfg.ignoreSpot)
    case Reached(st, _) =>
      if st.core.height == height then Some(Validate(ToSnapshots(st.core.books), snaps, cfg.ignoreSpot)) else None
    case _ => None
  }

  /**
   Whenever an audit of a live book commits a state, that state has exactly the live height. It has
   the live time as well, unless the books diverged and the snapshot is at the live height, so that
   no remembered block follows it: then the time is 0.
   */
  lemma CommitsAtLiveHeight(cfg: Config, s: Sys, snaps: map<string, Snapshot>, height: nat)
    requires AuditInv(cfg, s) && s.task.Running? && s.task.epoch == s.l.epoch && s.l.live.Some?
    requires QueuesAccounted(s.l)
    ensures var r := Finish(cfg, s.l, s.task.epoch, s.task.clone, snaps, height);
            var live := s.l.live.value.core;
            var reset := AuditVerdict(cfg, s, snaps, height) == Some(Diverged) && height == live.height;
            && r.l.live.Some?
            && r.l.live.value.core.height == live.height
            && r.l.live.value.core.time == (if reset then 0 else live.time)
            && (r.l.live.value.core == live || r.l.out != s.l.out)
            && (r.l.out == s.l.out || r.l.out == s.l.out + [Gap]
               || (exists v, t, h :: r.l.out == s.l.out + [L2(v, t, h)]))
            && (AuditVerdict(cfg, s, snaps, height) == Some(Diverged) && r.ok ==> r.l.out == s.l.out + [Gap])
            && (AuditVerdict(cfg, s, snaps, height) in {None, Some(Equal)} ==> r.ok && r.l == TakeCache(s.l))
            && r.l == s.l.(cache := None, cacheBytes := 0, live := r.l.live, out := r.l.out)
  {
    hide Replay, ApplyBlock, CatchUp, UpdatedAll, SplitAt, FromNode, Validate, Refreshed;
    var live, clone, blocks := s.l.live.value.core, s.task.clone.value, s.l.cache.value;
    CatchUpSplits(clone, height, blocks, cfg.ignoreSpot, live);
    var c := CatchUp(clone, height, blocks, cfg.ignoreSpot);
    if c.Reached? && c.state.core.height == height {
      var v := Validate(ToSnapshots(c.state.core.books), snaps, cfg.ignoreSpot);
      var time := if v == EmptyBooksAdded then c.state.core.time else 0;
      var n := FromNode(snaps, height, time);
      FromNodeHeader(snaps, height, time);
      RestLeadsOn(clone.core, c.state.core, blocks, c.rest, cfg.ignoreSpot, live);
      ReplayHeights(c.state.core, c.rest, cfg.ignoreSpot);
      UpdatedAllIsReplay(n, c.rest, cfg.ignoreSpot);
      var u := UpdatedAll(n, c.rest, cfg.ignoreSpot);
      if c.rest == [] {
        NothingToReplay(n, cfg.ignoreSpot);
      }
      if u.ok {
        ReplayHeights(n.core, c.rest, cfg.ignoreSpot);
        SnappedCore(u.state);
        StaysUnsnapped(n, c.rest, cfg.ignoreSpot);
      }
    }
  }

  lemma NothingToReplay(s: State, ignoreSpot: bool)
    ensures UpdatedAll(s, [], ignoreSpot) == StateReply(s, true)
  {
  }

  /** The time of a first load: 0 while no queued block has been applied to it, else that of the last one applied. */
  lemma {:induction false} LoadTime(cfg: Config, l: Listener, s: State)
    requires QueuesAccounted(l) && l.live.None?
    ensures var r := InitLoop(cfg, l, s);
            r.live.Some? ==>
              && r.live.value.core.height >= s.core.height
              && (r.live.value.core.height == s.core.height ==> r.live.value.core == s.core)
              && (r.live.value.core.height > s.core.height ==>
                   HasBatch(l.statuses.items, r.live.value.core.height, r.live.value.core.time))
    decreases |l.statuses.items| + |l.diffs.items|
  {
    hide PopPair, Accounted, ApplyDiffs;
    PopShrinks(l.statuses, l.diffs);
    PopTakes(l.statuses, l.diffs);
    InitLoopStep(cfg, l, s);
    var p := PopPair(l.statuses, l.diffs);
    if p.pair.Some? {
      var b := Block(p.pair.value.0, p.pair.value.1);
      var u := Updated(s, b, cfg.ignoreSpot);
      if u.ok {
        LoadTime(cfg, l.(statuses := p.left, diffs := p.right), u.state);
        HasMore(p.left.items, l.statuses.items);
      }
    }
  }

  ghost predicate HasBatch<E>(items: seq<Batch<E>>, height: nat, time: nat) {
    exists i :: 0 <= i < |items| && items[i].height == height && items[i].time == time
  }

  lemma HasMore<E>(part: seq<Batch<E>>, items: seq<Batch<E>>)
    requires forall i :: 0 <= i < |part| ==> part[i] in items
    ensures forall h, t :: HasBatch(part, h, t) ==> HasBatch(items, h, t)
  {
    forall h, t | HasBatch(part, h, t) ensures HasBatch(items, h, t) {
      var i :| 0 <= i < |part| && part[i].height == h && part[i].time == t;
      assert part[i] in items;
    }
  }

  lemma {:induction false} PopTakes<A, B>(a: Queue<A>, b: Queue<B>)
    requires Accounted(a) && Accounted(b)
    ensures var r := PopPair(a, b);
            && (r.pair.Some? ==> r.pair.value.0 in a.items)
            && forall i :: 0 <= i < |r.left.items| ==> r.left.items[i] in a.items
    decreases |a.items| + |b.items|
  {
    hide Accounted;
    if a.items != [] && b.items != [] {
      if b.items[0].height < a.items[0].height {
        PopTakes(a, DropFront(b));
      } else if b.items[0].height > a.items[0].height {
        PopTakes(DropFront(a), b);
      }
    }
  }

  lemma FromNodeHeader(snaps: map<string, Snapshot>, height: nat, time: nat)
    ensures var n := FromNode(snaps, height, time); n.core.height == height && n.core.time == time && !n.snapped
  {
  }

  lemma RestLeadsOn(s: Core, s': Core, blocks: seq<Block>, rest: seq<Block>, ignoreSpot: bool, c: Core)
    requires SplitAt(s, s', blocks, rest, ignoreSpot, c)
    ensures Replay(s', rest, ignoreSpot) == Some(c)
  {
    hide Replay;
  }

  lemma FinishKeeps(cfg: Config, s: Sys, snaps: map<string, Snapshot>, height: nat)
    requires Inv(cfg, s) && s.task.Running?
    ensures QueuesAccounted(s.l)
    ensures var r := Finish(cfg, s.l, s.task.epoch, s.task.clone, snaps, height);
            Inv(cfg, Sys(r.l, Done(r.ok)))
  {
    TaskEpoch(cfg, s);
    hide Replay, Finish, QueueOk, CachedBytes;
    if s.task.epoch != s.l.epoch {
      StaleFinish(cfg, s.l, s.task.epoch, s.task.clone, snaps, height);
    } else if s.l.live.None? {
      FinishInit(cfg, s.l, s.task.epoch, snaps, height);
      LiveAfterInit(cfg, s.l, snaps, height);
    } else {
      CommitsAtLiveHeight(cfg, s, snaps, height);
      var r := Finish(cfg, s.l, s.task.epoch, s.task.clone, snaps, height);
      if r.l.out != s.l.out {
        var m := r.l.out[|s.l.out|];
        assert r.l.out == s.l.out + [m];
        ChainedAppend(s.l.out, m);
        LastL4Append(s.l.out, m);
      }
      hide Chained, LastL4;
    }
  }

  lemma StaleFinish(cfg: Config, l: Listener, epoch: nat, clone: Option<State>, snaps: map<string, Snapshot>,
                    height: nat)
    requires QueuesAccounted(l) && l.epoch != epoch
    ensures Finish(cfg, l, epoch, clone, snaps, height) == LReply(l, true)
  {
  }

  lemma FinishInit(cfg: Config, l: Listener, epoch: nat, snaps: map<string, Snapshot>, height: nat)
    requires QueuesAccounted(l) && l.epoch == epoch
    ensures Finish(cfg, l, epoch, None, snaps, height) ==
              LReply(InitLoop(cfg, TakeCache(l), FromNode(snaps, height, 0)), true)
  {
    hide InitLoop;
  }

  lemma LiveAfterInit(cfg: Config, l: Listener, snaps: map<string, Snapshot>, height: nat)
    requires QueuesOk(cfg, l) && l.live.None?
    ensures QueuesAccounted(l)
    ensures var r := InitLoop(cfg, TakeCache(l), FromNode(snaps, height, 0));
            QueuesOk(cfg, r) && r.cache.None? && r.cacheBytes == 0 && r.out == l.out && r.epoch == l.epoch
  {
    hide InitLoop;
    InitLoopKeeps(cfg, TakeCache(l), FromNode(snaps, height, 0));
  }

  // ----- every step, every run

  lemma StepKeeps(cfg: Config, s: Sys, e: Event)
    requires Inv(cfg, s) && Enabled(s, e)
    ensures QueuesAccounted(s.l) && Inv(cfg, Next(cfg, s, e))
  {
    TaskEpoch(cfg, s);
    match e {
      case TurnEv(rs) => TurnKeeps(cfg, s, rs);
      case FenceEv => FenceInv(cfg, s.l, s.task);
      case FinishEv(snaps, height) => FinishKeeps(cfg, s, snaps, height);
      case CrashEv => FenceInv(cfg, s.l, Idle);
      case JoinEv =>
        if !s.task.ok {
          FenceInv(cfg, s.l, Idle);
        }
      case ReadEv => ReadKeeps(cfg, s);
      case ExpireEv =>
      case BeginEv => BeginKeeps(cfg, s);
      case FailEv =>
    }
  }

  lemma ReadKeeps(cfg: Config, s: Sys)
    requires Inv(cfg, s)
    ensures Inv(cfg, s.(l := Read(s.l)))
  {
    hide Replay, QueueOk, Chained, LastL4, Refreshed, CachedBytes;
    if s.l.live.Some? {
      SnappedCore(s.l.live.value);
    }
  }

  lemma BeginKeeps(cfg: Config, s: Sys)
    requires Inv(cfg, s) && s.task.Idle?
    ensures Inv(cfg, Sys(BeginCaching(s.l), Running(s.l.epoch, s.l.live)))
  {
    hide QueueOk, Chained, LastL4;
  }

  /** The state after a run, when every event is enabled in turn. */
  ghost function RunEvents(cfg: Config, s: Sys, es: seq<Event>): Option<Sys>
    requires Inv(cfg, s)
    decreases |es|
  {
    if es == [] then Some(s)
    else if !Enabled(s, es[0]) then None
    else
      StepKeeps(cfg, s, es[0]);
      RunEvents(cfg, Next(cfg, s, es[0]), es[1..])
  }

  /** The state after a run from the start: a listener that has just been created, with no snapshot task. */
  ghost function FromStart(cfg: Config, es: seq<Event>): Option<Sys> {
    InitInv(cfg);
    RunEvents(cfg, INIT, es)
  }

  /** Safety of every run from the start: audit replay, publication order and queue bounds hold throughout. */
  lemma {:induction false} RunSafe(cfg: Config, s: Sys, es: seq<Event>)
    requires Inv(cfg, s)
    ensures var r := RunEvents(cfg, s, es); r.Some? ==> Inv(cfg, r.value)
    decreases |es|
  {
    if es != [] && Enabled(s, es[0]) {
      hide Inv, Next;
      StepKeeps(cfg, s, es[0]);
      RunSafe(cfg, Next(cfg, s, es[0]), es[1..]);
    }
  }
}
