/**
 The listener as a value, and each of its operations as a function: receiving batches, fencing,
 opening and abandoning a snapshot audit, and finishing one. `out` is the log of everything
 broadcast. Epochs are counted without wrap-around.
 */
module Listeners {
  import opened Prelude
  import opened Snapshots
  import opened Blocks
  import opened Queues
  import opened BookState

  datatype Config = Config(ignoreSpot: bool, limits: Limits)

  datatype Fill = Fill(coin: string, detail: string)

  datatype Msg = Gap | L2(views: ViewMap, time: nat, height: nat) | Fills(fills: Batch<Fill>) | L4(block: Block)

  datatype Listener = Listener(
    epoch: nat, cache: Option<seq<Block>>, cacheBytes: nat, live: Option<State>, lastFill: Option<nat>,
    statuses: Queue<Status>, diffs: Queue<Diff>, out: seq<Msg>)

  /** A parsed record; `aged` as in Queues.Push. */
  datatype Record = StatusRecord(s: Batch<Status>, aged: bool) | DiffRecord(d: Batch<Diff>, aged: bool)
                  | FillRecord(f: Batch<Fill>) | MalformedRecord

  predicate QueuesAccounted(l: Listener) {
    Accounted(l.statuses) && Accounted(l.diffs)
  }

  const START := Listener(0, None, 0, None, None, EmptyQueue(), EmptyQueue(), [])

  function Fence(l: Listener): Listener {
    Listener(l.epoch + 1, None, 0, None, l.lastFill, EmptyQueue(), EmptyQueue(), l.out + [Gap])
  }

  /** Stop collecting blocks for an audit. */
  function TakeCache(l: Listener): Listener {
    l.(cache := None, cacheBytes := 0)
  }

  /** Abandon the audit in progress; the live state stays. */
  function Invalidate(l: Listener): Listener {
    TakeCache(l).(epoch := l.epoch + 1)
  }

  function BeginCaching(l: Listener): Listener {
    l.(cache := Some([]), cacheBytes := 0)
  }

  datatype LReply = LReply(l: Listener, ok: bool)

  /** Queue a batch, or broadcast fills of a new height. */
  function Enqueue(cfg: Config, l: Listener, r: Record): LReply {
    match r
    case StatusRecord(b, aged) =>
      (match Push(l.statuses, b, cfg.limits, aged)
       case Accepted(q) => LReply(l.(statuses := q), true)
       case Stale => LReply(l, true)
       case Refused => LReply(l, false))
    case DiffRecord(b, aged) =>
      (match Push(l.diffs, b, cfg.limits, aged)
       case Accepted(q) => LReply(l.(diffs := q), true)
       case Stale => LReply(l, true)
       case Refused => LReply(l, false))
    case FillRecord(f) =>
      if l.lastFill.None? || l.lastFill.value < f.height
      then LReply(l.(lastFill := Some(f.height), out := l.out + [Fills(f)]), true)
      else LReply(l, true)
    case MalformedRecord => LReply(l, false)
  }

  function BlockBytes(b: Block): nat {
    b.statuses.wire + b.diffs.wire
  }

  /** Remember an applied block for the audit in progress, or give the audit up when it is over budget. */
  function Remember(cfg: Config, l: Listener, b: Block): Listener {
    var next := l.cacheBytes + BlockBytes(b);
    if l.cache.None? then l
    else if |l.cache.value| >= cfg.limits.heights || next > USIZE_MAX || next > cfg.limits.bytes then Invalidate(l)
    else l.(cache := Some(l.cache.value + [b]), cacheBytes := next)
  }

  /** Apply a paired block to the live state, remember it and broadcast it. */
  function Advanced(cfg: Config, l: Listener, b: Block): LReply
    requires l.live.Some?
  {
    if b.statuses.height <= l.live.value.core.height then LReply(l, true)
    else
      var r := Updated(l.live.value, b, cfg.ignoreSpot);
      var l1 := l.(live := Some(r.state));
      if !r.ok || BlockBytes(b) > USIZE_MAX then LReply(l1, false)
      else
        var l2 := Remember(cfg, l1, b);
        LReply(l2.(out := l2.out + [L4(b)]), true)
  }

  /** Pop at most one pair and apply it. */
  function Drain(cfg: Config, l: Listener): LReply
    requires QueuesAccounted(l) && l.live.Some?
  {
    var p := PopPair(l.statuses, l.diffs);
    var l1 := l.(statuses := p.left, diffs := p.right);
    if p.pair.None? then LReply(l1, true) else Advanced(cfg, l1, Block(p.pair.value.0, p.pair.value.1))
  }

  lemma EnqueueAccounted(cfg: Config, l: Listener, r: Record)
    requires QueuesAccounted(l)
    ensures QueuesAccounted(Enqueue(cfg, l, r).l)
  {
    if r.StatusRecord? {
      WireConcat(l.statuses.items, [r.s]);
      assert [r.s][1..] == [];
    } else if r.DiffRecord? {
      WireConcat(l.diffs.items, [r.d]);
      assert [r.d][1..] == [];
    }
  }

  function Receive(cfg: Config, l: Listener, r: Record): LReply
    requires QueuesAccounted(l)
  {
    var e := Enqueue(cfg, l, r);
    EnqueueAccounted(cfg, l, r);
    if !e.ok || e.l.live.None? then e else Drain(cfg, e.l)
  }

  lemma ReceiveAccounted(cfg: Config, l: Listener, r: Record)
    requires QueuesAccounted(l)
    ensures QueuesAccounted(Receive(cfg, l, r).l)
  {
    hide Updated;
    EnqueueAccounted(cfg, l, r);
  }

  function ReceiveAll(cfg: Config, l: Listener, rs: seq<Record>): LReply
    requires QueuesAccounted(l)
    decreases |rs|
  {
    if rs == [] then LReply(l, true)
    else
      var r := Receive(cfg, l, rs[0]);
      ReceiveAccounted(cfg, l, rs[0]);
      if r.ok then ReceiveAll(cfg, r.l, rs[1..]) else r
  }

  /** Broadcast the views of the live state once per height. */
  function PublishViews(l: Listener): Listener {
    if l.live.None? || l.live.value.snapped then l
    else
      var s := Snapped(l.live.value);
      l.(live := Some(s), out := l.out + [L2(s.cache, s.core.time, s.core.height)])
  }

  /** One chunk of records under one lock: on any error the stream is fenced at once. */
  function Turn(cfg: Config, l: Listener, rs: seq<Record>): Listener
    requires QueuesAccounted(l)
  {
    var r := ReceiveAll(cfg, l, rs);
    if r.ok then PublishViews(r.l) else Fence(r.l)
  }

  // ----- finishing an audit

  datatype Verdict = Equal | EmptyBooksAdded | Diverged

  function EmptySnapshot(s: Snapshot): bool {
    s.bids == [] && s.asks == []
  }

  /** Non-ignored coins agree, a coin missing on one side counting as an empty book. */
  ghost predicate Consistent(have: map<string, Snapshot>, want: map<string, Snapshot>, ignoreSpot: bool) {
    && (forall c :: c in have && !Ignored(c, ignoreSpot) ==>
          if c in want then have[c] == want[c] else EmptySnapshot(have[c]))
    && (forall c :: c in want && !Ignored(c, ignoreSpot) && c !in have ==> EmptySnapshot(want[c]))
  }

  ghost predicate HasExtra(have: map<string, Snapshot>, want: map<string, Snapshot>, ignoreSpot: bool) {
    exists c :: c in want && !Ignored(c, ignoreSpot) && c !in have
  }

  ghost function Validate(have: map<string, Snapshot>, want: map<string, Snapshot>, ignoreSpot: bool): Verdict {
    if !Consistent(have, want, ignoreSpot) then Diverged
    else if HasExtra(have, want, ignoreSpot) then EmptyBooksAdded
    else Equal
  }

  function ToSnapshots(books: Books): map<string, Snapshot> {
    map c | c in books :: ToSnapshot(books[c])
  }

  datatype Caught = Reached(state: State, rest: seq<Block>) | Short | Broken

  /** Replay remembered blocks on the captured clone until it reaches the node snapshot's height. */
  function CatchUp(s: State, height: nat, blocks: seq<Block>, ignoreSpot: bool): Caught
    decreases |blocks|
  {
    if s.core.height >= height then Reached(s, blocks)
    else if blocks == [] then Short
    else
      var r := Updated(s, blocks[0], ignoreSpot);
      if r.ok then CatchUp(r.state, height, blocks[1..], ignoreSpot) else Broken
  }

  function UpdatedAll(s: State, blocks: seq<Block>, ignoreSpot: bool): StateReply
    decreases |blocks|
  {
    if blocks == [] then StateReply(s, true)
    else
      var r := Updated(s, blocks[0], ignoreSpot);
      if r.ok then UpdatedAll(r.state, blocks[1..], ignoreSpot) else r
  }

  /** Start from a node snapshot and apply every pair that is already queued. */
  function InitLoop(cfg: Config, l: Listener, s: State): Listener
    requires QueuesAccounted(l)
    decreases |l.statuses.items| + |l.diffs.items|
  {
    var p := PopPair(l.statuses, l.diffs);
    PopShrinks(l.statuses, l.diffs);
    var l1 := l.(statuses := p.left, diffs := p.right);
    if p.pair.None? then l1.(live := Some(s))
    else
      var r := Updated(s, Block(p.pair.value.0, p.pair.value.1), cfg.ignoreSpot);
      if r.ok then InitLoop(cfg, l1, r.state) else l1
  }

  lemma {:induction false} PopShrinks<A, B>(a: Queue<A>, b: Queue<B>)
    requires Accounted(a) && Accounted(b)
    ensures var r := PopPair(a, b);
            r.pair.Some? ==> |r.left.items| + |r.right.items| < |a.items| + |b.items|
    decreases |a.items| + |b.items|
  {
    hide Accounted;
    if a.items != [] && b.items != [] {
      if b.items[0].height < a.items[0].height {
        PopShrinks(a, DropFront(b));
      } else if b.items[0].height > a.items[0].height {
        PopShrinks(DropFront(a), b);
      }
    }
  }

  lemma InitLoopStep(cfg: Config, l: Listener, s: State)
    requires QueuesAccounted(l)
    ensures var p := PopPair(l.statuses, l.diffs);
            var l1 := l.(statuses := p.left, diffs := p.right);
            InitLoop(cfg, l, s) ==
              if p.pair.None? then l1.(live := Some(s))
              else
                var r := Updated(s, Block(p.pair.value.0, p.pair.value.1), cfg.ignoreSpot);
                if r.ok then InitLoop(cfg, l1, r.state) else l1
  {
    hide PopPair, Updated, Accounted;
  }

  /** Commit a rebuilt state. An audit that only found new empty books is announced as views, a divergence as a gap. */
  function Commit(l: Listener, s: State, benign: bool): Listener {
    var l1 := l.(live := Some(s));
    if benign then PublishViews(l1) else l1.(out := l1.out + [Gap])
  }

  ghost function Reconcile(cfg: Config, l: Listener, clone: Option<State>, snaps: map<string, Snapshot>, height: nat,
                           blocks: seq<Block>): LReply
    requires QueuesAccounted(l)
  {
    if clone.None? then LReply(InitLoop(cfg, l, FromNode(snaps, height, 0)), true)
    else
      match CatchUp(clone.value, height, blocks, cfg.ignoreSpot)
      case Broken => LReply(l, false)
      case Short => LReply(l, true)
      case Reached(s, rest) =>
        if s.core.height > height then LReply(l, true)
        else
          var v := Validate(ToSnapshots(s.core.books), snaps, cfg.ignoreSpot);
          if v == Equal then LReply(l, true)
          else
            var time := if v == EmptyBooksAdded then s.core.time else 0;
            var r := UpdatedAll(FromNode(snaps, height, time), rest, cfg.ignoreSpot);
            if r.ok then LReply(Commit(l, r.state, v == EmptyBooksAdded), true) else LReply(l, false)
  }

  /** An audit opened in an earlier epoch has no effect. */
  ghost function Finish(cfg: Config, l: Listener, epoch: nat, clone: Option<State>, snaps: map<string, Snapshot>,
                        height: nat): LReply
    requires QueuesAccounted(l)
  {
    if l.epoch != epoch then LReply(l, true)
    else Reconcile(cfg, TakeCache(l), clone, snaps, height, if l.cache.Some? then l.cache.value else [])
  }

  /** A subscriber asks for the current views. */
  function Read(l: Listener): Listener {
    if l.live.None? then l else l.(live := Some(Refreshed(l.live.value)))
  }
}
