/**
 What subscribers and snapshot attempts can rely on over whole runs: between gaps the L4 updates
 are exactly the blocks that took the live book from one height to the next, and an attempt
 begun before a fence, an expiry or a published gap installs nothing.
 */
module Publication {
  import opened Prelude
  import opened Snapshots
  import opened Blocks
  import opened Replays
  import opened Queues
  import opened BookState
  import opened Listeners
  import opened Protocol
  import opened AuditEffects

  predicate NoGap(ms: seq<Msg>) {
    forall i :: 0 <= i < |ms| ==> !ms[i].Gap?
  }

  /** The blocks among the messages. */
  function L4s(ms: seq<Msg>): seq<Block> {
    if ms == [] then []
    else (if ms[0].L4? then [ms[0].block] else []) + L4s(ms[1..])
  }

  lemma Associative(x: seq<Block>, y: seq<Block>, z: seq<Block>)
    ensures x + (y + z) == x + y + z
  {
  }

  lemma {:induction false} L4sConcat(a: seq<Msg>, b: seq<Msg>)
    ensures L4s(a + b) == L4s(a) + L4s(b)
  {
    if a == [] {
      assert a + b == b;
    } else {
      var h := if a[0].L4? then [a[0].block] else [];
      assert (a + b)[1..] == a[1..] + b && (a + b)[0] == a[0];
      L4sConcat(a[1..], b);
      Associative(h, L4s(a[1..]), L4s(b));
    }
  }

  lemma L4sOne(m: Msg)
    ensures L4s([m]) == if m.L4? then [m.block] else []
  {
    assert [m][1..] == [];
  }

  /** What was broadcast between l and l'. */
  ghost function News(l: Listener, l': Listener): seq<Msg>
    requires l.out <= l'.out
  {
    l'.out[|l.out|..]
  }

  /** Without a gap, the blocks broadcast in between lead from the old live books to the new ones. */
  ghost predicate Continues(l: Listener, l': Listener, ignoreSpot: bool) {
    && l.out <= l'.out
    && (l.live.Some? && NoGap(News(l, l')) ==>
          l'.live.Some? && Replay(l.live.value.core, L4s(News(l, l')), ignoreSpot) == Some(l'.live.value.core))
  }

  /** Without a gap, every height after the old one up to the new one is broadcast, once and in order. */
  ghost predicate Consecutive(l: Listener, l': Listener) {
    && l.out <= l'.out
    && (l.live.Some? && NoGap(News(l, l')) ==>
          && l'.live.Some?
          && var bs := L4s(News(l, l'));
             && l'.live.value.core.height == l.live.value.core.height + |bs|
             && forall i :: 0 <= i < |bs| ==> bs[i].statuses.height == l.live.value.core.height + 1 + i)
  }

  lemma NewsSplit(a: Listener, b: Listener, c: Listener)
    requires a.out <= b.out && b.out <= c.out
    ensures a.out <= c.out && News(a, c) == News(a, b) + News(b, c)
    ensures NoGap(News(a, c)) <==> NoGap(News(a, b)) && NoGap(News(b, c))
    ensures L4s(News(a, c)) == L4s(News(a, b)) + L4s(News(b, c))
  {
    assert c.out[|a.out|..] == b.out[|a.out|..] + c.out[|b.out|..];
    L4sConcat(News(a, b), News(b, c));
    var x, y := News(a, b), News(b, c);
    if NoGap(x + y) {
      forall i | 0 <= i < |x| ensures !x[i].Gap? {
        assert x[i] == (x + y)[i];
      }
      forall i | 0 <= i < |y| ensures !y[i].Gap? {
        assert y[i] == (x + y)[|x| + i];
      }
    }
  }

  lemma ContinuesTrans(a: Listener, b: Listener, c: Listener, ignoreSpot: bool)
    requires Continues(a, b, ignoreSpot) && Continues(b, c, ignoreSpot)
    ensures Continues(a, c, ignoreSpot)
  {
    NewsSplit(a, b, c);
    hide NoGap, L4s, Replay, News;
    if a.live.Some? && NoGap(News(a, c)) {
      ReplayConcat(a.live.value.core, L4s(News(a, b)), L4s(News(b, c)), ignoreSpot);
    }
  }

  lemma ConsecutiveTrans(a: Listener, b: Listener, c: Listener)
    requires Consecutive(a, b) && Consecutive(b, c)
    ensures Consecutive(a, c)
  {
    NewsSplit(a, b, c);
    hide NoGap, L4s, News;
  }

  lemma ContinuesConsecutive(a: Listener, b: Listener, ignoreSpot: bool)
    requires Continues(a, b, ignoreSpot)
    ensures Consecutive(a, b)
  {
    hide NoGap, L4s, Replay, News;
    if a.live.Some? && NoGap(News(a, b)) {
      ReplayHeights(a.live.value.core, L4s(News(a, b)), ignoreSpot);
    }
  }

  /** Same live books and at most a message that is neither a block nor a gap. */
  lemma QuietContinues(l: Listener, l': Listener, ignoreSpot: bool)
    requires l.live.Some? ==> l'.live.Some? && l'.live.value.core == l.live.value.core
    requires l'.out == l.out || (|l'.out| > 0 && l'.out == l.out + [l'.out[|l'.out| - 1]] && !l'.out[|l'.out| - 1].L4?)
    ensures Continues(l, l', ignoreSpot)
  {
    if l'.out != l.out {
      var m := l'.out[|l'.out| - 1];
      assert News(l, l') == [m];
      L4sOne(m);
    } else {
      assert News(l, l') == [];
    }
    hide ApplyBlock;
  }

  lemma FenceContinues(l: Listener, l': Listener, ignoreSpot: bool)
    requires l.out <= l'.out
    ensures Continues(l, Fence(l'), ignoreSpot)
  {
    var news := Fence(l').out[|l.out|..];
    assert news[|news| - 1] == Gap;
  }

  // ----- one record

  lemma EnqueueContinues(cfg: Config, l: Listener, r: Record)
    ensures Continues(l, Enqueue(cfg, l, r).l, cfg.ignoreSpot)
  {
    hide Continues, Push;
    QuietContinues(l, Enqueue(cfg, l, r).l, cfg.ignoreSpot);
  }

  lemma AdvancedContinues(cfg: Config, l: Listener, b: Block)
    requires l.live.Some?
    ensures var r := Advanced(cfg, l, b);
            l.out <= r.l.out && (r.ok ==> Continues(l, r.l, cfg.ignoreSpot))
  {
    hide Replay, ApplyBlock;
    var r := Advanced(cfg, l, b);
    if r.ok {
      var c := l.live.value.core;
      if b.statuses.height > c.height {
        AcceptedIsNext(c, b, cfg.ignoreSpot);
        ReplayOne(c, b, cfg.ignoreSpot);
        assert News(l, r.l) == [L4(b)];
        L4sOne(L4(b));
      } else {
        QuietContinues(l, r.l, cfg.ignoreSpot);
      }
    }
  }

  lemma ReceiveContinues(cfg: Config, l: Listener, r: Record)
    requires QueuesAccounted(l)
    ensures var q := Receive(cfg, l, r);
            l.out <= q.l.out && (q.ok ==> Continues(l, q.l, cfg.ignoreSpot))
  {
    EnqueueContinues(cfg, l, r);
    EnqueueAccounted(cfg, l, r);
    var e := Enqueue(cfg, l, r);
    var q := Receive(cfg, l, r);
    PrefixOf(l, e.l, cfg.ignoreSpot);
    hide Enqueue, Advanced, PopPair, Continues;
    if e.ok && e.l.live.Some? {
      var p := PopPair(e.l.statuses, e.l.diffs);
      var l1 := e.l.(statuses := p.left, diffs := p.right);
      QuietContinues(e.l, l1, cfg.ignoreSpot);
      ContinuesTrans(l, e.l, l1, cfg.ignoreSpot);
      if p.pair.Some? {
        var b := Block(p.pair.value.0, p.pair.value.1);
        AdvancedContinues(cfg, l1, b);
        if q.ok {
          ContinuesTrans(l, l1, q.l, cfg.ignoreSpot);
        }
      }
    }
  }

  lemma PrefixOf(a: Listener, b: Listener, ignoreSpot: bool)
    requires Continues(a, b, ignoreSpot)
    ensures a.out <= b.out
  {
  }

  lemma {:induction false} ReceiveAllContinues(cfg: Config, l: Listener, rs: seq<Record>)
    requires QueuesAccounted(l)
    ensures var q := ReceiveAll(cfg, l, rs);
            l.out <= q.l.out && (q.ok ==> Continues(l, q.l, cfg.ignoreSpot))
    decreases |rs|
  {
    hide Receive, Continues, Accounted;
    if rs == [] {
      QuietContinues(l, l, cfg.ignoreSpot);
    } else {
      ReceiveContinues(cfg, l, rs[0]);
      ReceiveAccounted(cfg, l, rs[0]);
      var q := Receive(cfg, l, rs[0]);
      if q.ok {
        ReceiveAllContinues(cfg, q.l, rs[1..]);
        var q' := ReceiveAll(cfg, q.l, rs[1..]);
        if q'.ok {
          ContinuesTrans(l, q.l, q'.l, cfg.ignoreSpot);
        }
      }
    }
  }

  lemma TurnContinues(cfg: Config, l: Listener, rs: seq<Record>)
    requires QueuesAccounted(l)
    ensures Continues(l, Turn(cfg, l, rs), cfg.ignoreSpot)
  {
    hide ReceiveAll, Continues, Fence, Accounted, Refreshed;
    ReceiveAllContinues(cfg, l, rs);
    var q := ReceiveAll(cfg, l, rs);
    if q.ok {
      if q.l.live.Some? {
        SnappedCore(q.l.live.value);
      }
      QuietContinues(q.l, PublishViews(q.l), cfg.ignoreSpot);
      ContinuesTrans(l, q.l, PublishViews(q.l), cfg.ignoreSpot);
    } else {
      FenceContinues(l, q.l, cfg.ignoreSpot);
    }
  }

  // ----- one step

  /** Every step but the completion of an audit. */
  lemma StepContinues(cfg: Config, s: Sys, e: Event)
    requires Enabled(s, e) && QueuesAccounted(s.l) && !e.FinishEv?
    ensures Continues(s.l, Next(cfg, s, e).l, cfg.ignoreSpot)
  {
    hide Continues, Turn, Accounted;
    if e.TurnEv? {
      TurnContinues(cfg, s.l, e.records);
    } else if e.FenceEv? || e.CrashEv? || (e.JoinEv? && !s.task.ok) {
      FenceContinues(s.l, s.l, cfg.ignoreSpot);
    } else {
      if s.l.live.Some? {
        SnappedCore(s.l.live.value);
      }
      QuietContinues(s.l, Next(cfg, s, e).l, cfg.ignoreSpot);
    }
  }

  lemma StepConsecutive(cfg: Config, s: Sys, e: Event)
    requires Inv(cfg, s) && Enabled(s, e) && QueuesAccounted(s.l)
    ensures Consecutive(s.l, Next(cfg, s, e).l)
  {
    hide Consecutive, Continues;
    if e.FinishEv? {
      FinishConsecutive(cfg, s, e.snaps, e.height);
    } else {
      StepContinues(cfg, s, e);
      ContinuesConsecutive(s.l, Next(cfg, s, e).l, cfg.ignoreSpot);
    }
  }

  lemma QuietConsecutive(l: Listener, l': Listener)
    requires l.live.Some? ==> l'.live.Some? && l'.live.value.core.height == l.live.value.core.height
    requires l'.out == l.out || (|l'.out| > 0 && l'.out == l.out + [l'.out[|l'.out| - 1]] && !l'.out[|l'.out| - 1].L4?)
    ensures Consecutive(l, l')
  {
    if l'.out != l.out {
      var m := l'.out[|l'.out| - 1];
      assert News(l, l') == [m];
      L4sOne(m);
    } else {
      assert News(l, l') == [];
    }
  }

  lemma FinishConsecutive(cfg: Config, s: Sys, snaps: map<string, Snapshot>, height: nat)
    requires Inv(cfg, s) && s.task.Running? && QueuesAccounted(s.l)
    ensures Consecutive(s.l, Finish(cfg, s.l, s.task.epoch, s.task.clone, snaps, height).l)
  {
    hide Consecutive, Replay, Finish, QueueOk, CachedBytes, Chained, LastL4;
    var r := Finish(cfg, s.l, s.task.epoch, s.task.clone, snaps, height);
    if s.task.epoch != s.l.epoch {
      StaleFinish(cfg, s.l, s.task.epoch, s.task.clone, snaps, height);
    } else if s.l.live.None? {
      FinishInit(cfg, s.l, s.task.epoch, snaps, height);
      LiveAfterInit(cfg, s.l, snaps, height);
    } else {
      CommitsAtLiveHeight(cfg, s, snaps, height);
      if r.l.out != s.l.out {
        assert r.l.out == s.l.out + [r.l.out[|s.l.out|]];
      }
    }
    QuietConsecutive(s.l, r.l);
  }

  // ----- runs

  /** Over every run, the L4 updates between gaps are all the heights the live book went through, once and in order. */
  lemma {:induction false} RunConsecutive(cfg: Config, s: Sys, es: seq<Event>)
    requires Inv(cfg, s)
    ensures var r := RunEvents(cfg, s, es); r.Some? ==> Consecutive(s.l, r.value.l)
    decreases |es|
  {
    hide Inv, Next, Consecutive;
    if es == [] {
      QuietConsecutive(s.l, s.l);
    } else if Enabled(s, es[0]) {
      StepKeeps(cfg, s, es[0]);
      var s' := Next(cfg, s, es[0]);
      StepConsecutive(cfg, s, es[0]);
      RunConsecutive(cfg, s', es[1..]);
      var r := RunEvents(cfg, s', es[1..]);
      if r.Some? {
        ConsecutiveTrans(s.l, s'.l, r.value.l);
      }
    }
  }

  /** The completion of an audit that rebuilds the live books because the node has new empty ones. */
  ghost predicate Rebuilding(cfg: Config, s: Sys, e: Event) {
    && e.FinishEv? && s.task.Running? && s.task.epoch == s.l.epoch && s.l.live.Some?
    && s.task.clone.Some? && s.l.cache.Some? && AuditVerdict(cfg, s, e.snaps, e.height) == Some(EmptyBooksAdded)
  }

  /** All other audits: stale, short, past the snapshot, equal, or diverged and announced by a gap. */
  lemma FinishContinues(cfg: Config, s: Sys, snaps: map<string, Snapshot>, height: nat)
    requires Inv(cfg, s) && s.task.Running? && QueuesAccounted(s.l) && !Rebuilding(cfg, s, FinishEv(snaps, height))
    ensures Continues(s.l, Finish(cfg, s.l, s.task.epoch, s.task.clone, snaps, height).l, cfg.ignoreSpot)
  {
    hide Continues, Replay, Finish, QueueOk, CachedBytes, Chained, LastL4, CatchUp;
    var r := Finish(cfg, s.l, s.task.epoch, s.task.clone, snaps, height);
    if s.task.epoch != s.l.epoch {
      StaleFinish(cfg, s.l, s.task.epoch, s.task.clone, snaps, height);
      QuietContinues(s.l, r.l, cfg.ignoreSpot);
    } else if s.l.live.None? {
      FinishInit(cfg, s.l, s.task.epoch, snaps, height);
      LiveAfterInit(cfg, s.l, snaps, height);
      QuietContinues(s.l, r.l, cfg.ignoreSpot);
    } else {
      CommitsAtLiveHeight(cfg, s, snaps, height);
      if AuditVerdict(cfg, s, snaps, height) == Some(Diverged) {
        DivergedContinues(cfg, s, snaps, height);
      } else {
        QuietContinues(s.l, r.l, cfg.ignoreSpot);
      }
    }
  }

  lemma DivergedContinues(cfg: Config, s: Sys, snaps: map<string, Snapshot>, height: nat)
    requires AuditOfLive(cfg, s) && AuditVerdict(cfg, s, snaps, height) == Some(Diverged)
    ensures Continues(s.l, Finish(cfg, s.l, s.task.epoch, s.task.clone, snaps, height).l, cfg.ignoreSpot)
  {
    var r := Finish(cfg, s.l, s.task.epoch, s.task.clone, snaps, height);
    CommitsAtLiveHeight(cfg, s, snaps, height);
    hide Replay, CatchUp, UpdatedAll, Continues, Validate, FromNode, Commit;
    if r.ok {
      GapContinues(s.l, r.l, cfg.ignoreSpot);
    } else {
      QuietContinues(s.l, r.l, cfg.ignoreSpot);
    }
  }

  lemma GapContinues(l: Listener, l': Listener, ignoreSpot: bool)
    requires l'.out == l.out + [Gap]
    ensures Continues(l, l', ignoreSpot)
  {
    assert News(l, l')[0] == Gap;
  }

  /** No step of the run is a rebuilding audit. */
  ghost predicate NeverRebuilds(cfg: Config, s: Sys, es: seq<Event>)
    requires Inv(cfg, s)
    decreases |es|
  {
    es != [] && Enabled(s, es[0]) ==>
      && !Rebuilding(cfg, s, es[0])
      && (StepKeeps(cfg, s, es[0]); NeverRebuilds(cfg, Next(cfg, s, es[0]), es[1..]))
  }

  /**
   Over every run, audits included, replaying the broadcast blocks on the old live books gives the
   new ones exactly, as long as no audit rebuilds the books.
   */
  lemma {:induction false} RunContinues(cfg: Config, s: Sys, es: seq<Event>)
    requires Inv(cfg, s) && NeverRebuilds(cfg, s, es)
    ensures var r := RunEvents(cfg, s, es); r.Some? ==> Continues(s.l, r.value.l, cfg.ignoreSpot)
    decreases |es|
  {
    hide Inv, Next, Continues, Rebuilding;
    if es == [] {
      QuietContinues(s.l, s.l, cfg.ignoreSpot);
    } else if Enabled(s, es[0]) {
      StepKeeps(cfg, s, es[0]);
      var s' := Next(cfg, s, es[0]);
      AnyStepContinues(cfg, s, es[0]);
      RunContinues(cfg, s', es[1..]);
      var r := RunEvents(cfg, s', es[1..]);
      if r.Some? {
        ContinuesTrans(s.l, s'.l, r.value.l, cfg.ignoreSpot);
      }
    }
  }

  lemma AnyStepContinues(cfg: Config, s: Sys, e: Event)
    requires Inv(cfg, s) && Enabled(s, e) && QueuesAccounted(s.l) && !Rebuilding(cfg, s, e)
    ensures Continues(s.l, Next(cfg, s, e).l, cfg.ignoreSpot)
  {
    hide Inv, Continues, Finish, Turn, Rebuilding;
    if e.FinishEv? {
      FinishContinues(cfg, s, e.snaps, e.height);
    } else {
      StepContinues(cfg, s, e);
    }
  }

  // ----- attempts overtaken by a fence

  /** The attempt in flight is still the same one afterwards. */
  predicate KeepsAttempt(e: Event) {
    !e.FinishEv? && !e.FailEv? && !e.CrashEv?
  }

  /** What an attempt in flight sees of the listener: epochs only grow, and grow with every gap. */
  ghost predicate Overtakes(l: Listener, l': Listener) {
    l.out <= l'.out && l.epoch <= l'.epoch && (!NoGap(News(l, l')) ==> l.epoch < l'.epoch)
  }

  lemma OvertakesTrans(a: Listener, b: Listener, c: Listener)
    requires Overtakes(a, b) && Overtakes(b, c)
    ensures Overtakes(a, c)
  {
    NewsSplit(a, b, c);
    hide NoGap, News;
  }

  lemma QuietOvertakes(l: Listener, l': Listener)
    requires l.epoch <= l'.epoch
    requires l'.out == l.out || (|l'.out| > 0 && l'.out == l.out + [l'.out[|l'.out| - 1]] && !l'.out[|l'.out| - 1].Gap?)
    ensures Overtakes(l, l')
  {
  }

  lemma FenceOvertakes(l: Listener, l': Listener)
    requires l.out <= l'.out && l.epoch <= l'.epoch
    ensures Overtakes(l, Fence(l')) && l.epoch < Fence(l').epoch
  {
  }

  lemma ReceiveOvertakes(cfg: Config, l: Listener, r: Record)
    requires QueuesAccounted(l)
    ensures Overtakes(l, Receive(cfg, l, r).l)
  {
    hide Push, Overtakes, PopPair, Updated;
    EnqueueAccounted(cfg, l, r);
    var e := Enqueue(cfg, l, r);
    QuietOvertakes(l, e.l);
    if e.ok && e.l.live.Some? {
      QuietOvertakes(e.l, Drain(cfg, e.l).l);
      OvertakesTrans(l, e.l, Drain(cfg, e.l).l);
    }
  }

  lemma {:induction false} ReceiveAllOvertakes(cfg: Config, l: Listener, rs: seq<Record>)
    requires QueuesAccounted(l)
    ensures Overtakes(l, ReceiveAll(cfg, l, rs).l)
    decreases |rs|
  {
    hide Receive, Overtakes, Accounted;
    if rs == [] {
      QuietOvertakes(l, l);
    } else {
      ReceiveOvertakes(cfg, l, rs[0]);
      ReceiveAccounted(cfg, l, rs[0]);
      var q := Receive(cfg, l, rs[0]);
      if q.ok {
        ReceiveAllOvertakes(cfg, q.l, rs[1..]);
        OvertakesTrans(l, q.l, ReceiveAll(cfg, q.l, rs[1..]).l);
      }
    }
  }

  lemma TurnOvertakes(cfg: Config, l: Listener, rs: seq<Record>)
    requires QueuesAccounted(l)
    ensures Overtakes(l, Turn(cfg, l, rs))
  {
    hide ReceiveAll, Accounted, Refreshed, NoGap;
    ReceiveAllOvertakes(cfg, l, rs);
    var q := ReceiveAll(cfg, l, rs);
    if q.ok {
      QuietOvertakes(q.l, PublishViews(q.l));
      hide Overtakes;
      OvertakesTrans(l, q.l, PublishViews(q.l));
    } else {
      FenceOvertakes(l, q.l);
    }
  }

  /** A step that leaves the attempt in flight overtakes it whenever it fences, expires or publishes a gap. */
  lemma StepOvertakes(cfg: Config, s: Sys, e: Event)
    requires Enabled(s, e) && QueuesAccounted(s.l) && s.task.Running? && KeepsAttempt(e)
    ensures var s' := Next(cfg, s, e);
            && s'.task == s.task && Overtakes(s.l, s'.l)
            && (e.FenceEv? || e.ExpireEv? ==> s.l.epoch < s'.l.epoch)
  {
    hide Turn, Accounted, Overtakes;
    if e.TurnEv? {
      TurnOvertakes(cfg, s.l, e.records);
    } else if e.FenceEv? {
      FenceOvertakes(s.l, s.l);
    } else {
      QuietOvertakes(s.l, Next(cfg, s, e).l);
    }
  }

  lemma {:induction false} RunOvertakes(cfg: Config, s: Sys, es: seq<Event>)
    requires Inv(cfg, s) && s.task.Running? && forall i :: 0 <= i < |es| ==> KeepsAttempt(es[i])
    ensures var r := RunEvents(cfg, s, es);
            r.Some? ==>
              && r.value.task == s.task && Overtakes(s.l, r.value.l)
              && ((exists i :: 0 <= i < |es| && (es[i].FenceEv? || es[i].ExpireEv?)) ==> s.l.epoch < r.value.l.epoch)
    decreases |es|
  {
    hide Inv, Next, NoGap, News;
    if es == [] {
      QuietOvertakes(s.l, s.l);
    } else if Enabled(s, es[0]) {
      StepKeeps(cfg, s, es[0]);
      var s' := Next(cfg, s, es[0]);
      StepOvertakes(cfg, s, es[0]);
      RunOvertakes(cfg, s', es[1..]);
      var r := RunEvents(cfg, s', es[1..]);
      if r.Some? {
        OvertakesTrans(s.l, s'.l, r.value.l);
        assert forall i :: 0 < i < |es| ==> es[i] == es[1..][i - 1];
      }
    }
  }

  /** The remembered blocks are gone at some point of the run, for whatever reason; overflowing their budget is one. */
  ghost predicate CacheGone(cfg: Config, s: Sys, es: seq<Event>)
    requires Inv(cfg, s)
    decreases |es|
  {
    || s.l.cache.None?
    || (es != [] && Enabled(s, es[0]) && (StepKeeps(cfg, s, es[0]); CacheGone(cfg, Next(cfg, s, es[0]), es[1..])))
  }

  lemma Remembering(cfg: Config, s: Sys)
    requires Inv(cfg, s) && s.task.Running?
    ensures s.task.epoch <= s.l.epoch && (s.task.epoch == s.l.epoch <==> s.l.cache.Some?)
  {
    hide Replay, Chained, CacheOk, QueuesOk, Published;
  }

  /** The epoch has moved on from the attempt's exactly when its remembered blocks were gone at some point. */
  lemma {:induction false} OvertakenIff(cfg: Config, s: Sys, es: seq<Event>)
    requires Inv(cfg, s) && s.task.Running? && forall i :: 0 <= i < |es| ==> KeepsAttempt(es[i])
    ensures var r := RunEvents(cfg, s, es);
            r.Some? ==> r.value.task == s.task && (r.value.l.epoch != s.task.epoch <==> CacheGone(cfg, s, es))
    decreases |es|
  {
    hide Inv, Next, Overtakes;
    Remembering(cfg, s);
    RunOvertakes(cfg, s, es);
    EpochsGrow(cfg, s, es);
    if es != [] && Enabled(s, es[0]) {
      TaskEpoch(cfg, s);
      StepKeeps(cfg, s, es[0]);
      StepOvertakes(cfg, s, es[0]);
      OvertakenIff(cfg, Next(cfg, s, es[0]), es[1..]);
    }
  }

  lemma EpochsGrow(cfg: Config, s: Sys, es: seq<Event>)
    requires Inv(cfg, s) && s.task.Running? && forall i :: 0 <= i < |es| ==> KeepsAttempt(es[i])
    ensures var r := RunEvents(cfg, s, es); r.Some? ==> s.l.epoch <= r.value.l.epoch
  {
    hide Inv, Next, RunEvents, NoGap, News;
    RunOvertakes(cfg, s, es);
  }

  /**
   A snapshot attempt in flight during any run in which the stream is fenced, the audit expires,
   a gap is published or the remembered blocks are dropped has no effect when it finishes, whatever
   it brings.
   */
  lemma OvertakenAttemptInstallsNothing(cfg: Config, s: Sys, es: seq<Event>, r: Sys, snaps: map<string, Snapshot>,
                                        height: nat)
    requires Inv(cfg, s) && s.task.Running? && forall i :: 0 <= i < |es| ==> KeepsAttempt(es[i])
    requires RunEvents(cfg, s, es) == Some(r)
    requires || (exists i :: 0 <= i < |es| && (es[i].FenceEv? || es[i].ExpireEv?))
             || (s.l.out <= r.l.out && !NoGap(News(s.l, r.l)))
             || CacheGone(cfg, s, es)
    ensures QueuesAccounted(r.l) && r.task.Running?
    ensures Finish(cfg, r.l, r.task.epoch, r.task.clone, snaps, height) == LReply(r.l, true)
  {
    hide Next, NoGap, News, RunEvents, Finish, Chained, Published, CacheOk, QueueOk, Replay, CacheGone;
    RunOvertakes(cfg, s, es);
    OvertakenIff(cfg, s, es);
    RunSafe(cfg, s, es);
    TaskEpoch(cfg, s);
    TaskEpoch(cfg, r);
    StaleFinish(cfg, r.l, r.task.epoch, r.task.clone, snaps, height);
  }

  /** A fenced listener becomes ready only through an attempt begun in the current epoch. */
  lemma OnlyCurrentAttemptsInstall(cfg: Config, s: Sys, e: Event)
    requires Inv(cfg, s) && Enabled(s, e) && QueuesAccounted(s.l)
    requires s.l.live.None? && Next(cfg, s, e).l.live.Some?
    ensures e.FinishEv? && s.task.epoch == s.l.epoch && s.task.clone.None?
  {
    hide Chained, CacheOk, QueueOk, Finish, Turn;
    match e {
      case TurnEv(rs) => TurnStaysFenced(cfg, s.l, rs);
      case FinishEv(snaps, height) =>
        if s.task.epoch != s.l.epoch {
          StaleFinish(cfg, s.l, s.task.epoch, s.task.clone, snaps, height);
        }
      case _ =>
    }
  }

  lemma TurnStaysFenced(cfg: Config, l: Listener, rs: seq<Record>)
    requires QueuesAccounted(l) && l.live.None?
    ensures Turn(cfg, l, rs).live.None?
  {
    hide ReceiveAll, Accounted;
    ReceiveAllStaysFenced(cfg, l, rs);
  }

  lemma {:induction false} ReceiveAllStaysFenced(cfg: Config, l: Listener, rs: seq<Record>)
    requires QueuesAccounted(l) && l.live.None?
    ensures ReceiveAll(cfg, l, rs).l.live.None?
    decreases |rs|
  {
    if rs != [] {
      ReceiveAccounted(cfg, l, rs[0]);
      hide Accounted, Push;
      var q := Receive(cfg, l, rs[0]);
      if q.ok {
        ReceiveAllStaysFenced(cfg, q.l, rs[1..]);
      }
    }
  }
}
