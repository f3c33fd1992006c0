/**
 The listener as a pairing machine. Over every run, fills and loads and audits included, the
 listener's queues are those of a machine that has accepted what arrived since the last fence; a
 ready listener has popped exactly the ordered intersection of the two streams.
 */
module StreamPairs {
  import opened Snapshots
  import opened Blocks
  import opened Queues
  import opened Pairing
  import opened BookState
  import opened Listeners
  import opened Protocol

  ghost predicate Follows(m: Machine, l: Listener) {
    PairInv(m) && m.a == l.statuses && m.b == l.diffs
  }

  const FENCED: Machine := Machine(EmptyQueue(), EmptyQueue(), [], [], [])

  lemma FencedFollows(l: Listener)
    requires l.statuses == EmptyQueue() && l.diffs == EmptyQueue()
    ensures Follows(FENCED, l)
  {
    hide PairInv;
    StartInv(FENCED);
  }

  lemma FollowsAccounted(m: Machine, l: Listener)
    requires Follows(m, l)
    ensures QueuesAccounted(l) && Accounted(m.a) && Accounted(m.b)
  {
    hide PairInv, Accounted;
    InvAccounted(m);
  }

  // ----- records

  /** A record that is accepted joins its stream. */
  function Arrived(cfg: Config, m: Machine, r: Record): Machine {
    match r
    case StatusRecord(b, aged) => if Push(m.a, b, cfg.limits, aged).Accepted? then PushLeft(m, b) else m
    case DiffRecord(b, aged) => if Push(m.b, b, cfg.limits, aged).Accepted? then PushRight(m, b) else m
    case _ => m
  }

  lemma ArrivedFollows(cfg: Config, m: Machine, l: Listener, r: Record)
    requires Follows(m, l)
    ensures Follows(Arrived(cfg, m, r), Enqueue(cfg, l, r).l)
  {
    hide PairInv;
    match r {
      case StatusRecord(b, aged) =>
        if Push(m.a, b, cfg.limits, aged).Accepted? {
          PushLeftKeeps(m, b);
        }
      case DiffRecord(b, aged) =>
        if Push(m.b, b, cfg.limits, aged).Accepted? {
          PushRightKeeps(m, b);
        }
      case _ =>
    }
  }

  /** A ready listener pops at most one pair per record; until then batches pile up. */
  ghost function Received(cfg: Config, m: Machine, l: Listener, r: Record): Machine
    requires Follows(m, l)
  {
    ArrivedFollows(cfg, m, l, r);
    var m1, e := Arrived(cfg, m, r), Enqueue(cfg, l, r);
    FollowsAccounted(m1, e.l);
    if e.ok && e.l.live.Some? then PopOne(m1) else m1
  }

  lemma ReceivedFollows(cfg: Config, m: Machine, l: Listener, r: Record)
    requires Follows(m, l)
    ensures QueuesAccounted(l) && Follows(Received(cfg, m, l, r), Receive(cfg, l, r).l)
  {
    hide PairInv, Accounted, PopPair, Enqueue, Arrived, Updated;
    FollowsAccounted(m, l);
    ArrivedFollows(cfg, m, l, r);
    EnqueueAccounted(cfg, l, r);
    var m1 := Arrived(cfg, m, r);
    InvAccounted(m1);
    PopOneKeeps(m1);
  }

  ghost function ReceivedAll(cfg: Config, m: Machine, l: Listener, rs: seq<Record>): Machine
    requires Follows(m, l)
    decreases |rs|
  {
    if rs == [] then m
    else
      ReceivedFollows(cfg, m, l, rs[0]);
      var q := Receive(cfg, l, rs[0]);
      if q.ok then ReceivedAll(cfg, Received(cfg, m, l, rs[0]), q.l, rs[1..]) else FENCED
  }

  lemma {:induction false} ReceivedAllFollows(cfg: Config, m: Machine, l: Listener, rs: seq<Record>)
    requires Follows(m, l)
    ensures QueuesAccounted(l)
    ensures var q := ReceiveAll(cfg, l, rs); q.ok ==> Follows(ReceivedAll(cfg, m, l, rs), q.l)
    decreases |rs|
  {
    hide Follows, Received, Receive, Accounted;
    FollowsAccounted(m, l);
    if rs != [] {
      ReceivedFollows(cfg, m, l, rs[0]);
      var q := Receive(cfg, l, rs[0]);
      if q.ok {
        ReceivedAllFollows(cfg, Received(cfg, m, l, rs[0]), q.l, rs[1..]);
      }
    }
  }

  // ----- loading a book

  /** Loading pops pair after pair until none is left or one does not apply. */
  ghost function Loaded(cfg: Config, m: Machine, s: State): Machine
    requires PairInv(m)
    decreases |m.a.items| + |m.b.items|
  {
    InvAccounted(m);
    PopOneKeeps(m);
    PopShrinks(m.a, m.b);
    var p := PopPair(m.a, m.b);
    if p.pair.None? then PopOne(m)
    else
      var r := Updated(s, Block(p.pair.value.0, p.pair.value.1), cfg.ignoreSpot);
      if r.ok then Loaded(cfg, PopOne(m), r.state) else PopOne(m)
  }

  lemma {:induction false} LoadedFollows(cfg: Config, m: Machine, l: Listener, s: State)
    requires Follows(m, l)
    ensures QueuesAccounted(l) && Follows(Loaded(cfg, m, s), InitLoop(cfg, l, s))
    decreases |m.a.items| + |m.b.items|
  {
    hide PairInv, Accounted, PopPair, Updated;
    FollowsAccounted(m, l);
    PopOneKeeps(m);
    PopShrinks(m.a, m.b);
    InitLoopStep(cfg, l, s);
    var p := PopPair(m.a, m.b);
    if p.pair.Some? {
      var r := Updated(s, Block(p.pair.value.0, p.pair.value.1), cfg.ignoreSpot);
      if r.ok {
        LoadedFollows(cfg, PopOne(m), l.(statuses := p.left, diffs := p.right), r.state);
      }
    }
  }

  // ----- every step, every run

  ghost function NextPairs(cfg: Config, s: Sys, m: Machine, e: Event): Machine
    requires Enabled(s, e) && Follows(m, s.l)
  {
    match e
    case TurnEv(rs) => ReceivedAll(cfg, m, s.l, rs)
    case FenceEv => FENCED
    case CrashEv => FENCED
    case JoinEv => if s.task.ok then m else FENCED
    case FinishEv(snaps, height) =>
      if s.task.epoch == s.l.epoch && s.task.clone.None? then Loaded(cfg, m, FromNode(snaps, height, 0)) else m
    case _ => m
  }

  lemma TurnFollows(cfg: Config, m: Machine, l: Listener, rs: seq<Record>)
    requires Follows(m, l)
    ensures QueuesAccounted(l) && Follows(ReceivedAll(cfg, m, l, rs), Turn(cfg, l, rs))
  {
    hide PairInv, Accounted, ReceiveAll, ReceivedAll, Refreshed;
    ReceivedAllFollows(cfg, m, l, rs);
    if !ReceiveAll(cfg, l, rs).ok {
      FailedAll(cfg, m, l, rs);
      FencedFollows(Turn(cfg, l, rs));
    }
  }

  lemma {:induction false} FailedAll(cfg: Config, m: Machine, l: Listener, rs: seq<Record>)
    requires Follows(m, l) && QueuesAccounted(l) && !ReceiveAll(cfg, l, rs).ok
    ensures ReceivedAll(cfg, m, l, rs) == FENCED
    decreases |rs|
  {
    hide Follows, Received, Receive, Accounted;
    ReceivedFollows(cfg, m, l, rs[0]);
    var q := Receive(cfg, l, rs[0]);
    if q.ok {
      FollowsAccounted(Received(cfg, m, l, rs[0]), q.l);
      FailedAll(cfg, Received(cfg, m, l, rs[0]), q.l, rs[1..]);
    }
  }

  lemma FinishFollows(cfg: Config, s: Sys, m: Machine, snaps: map<string, Snapshot>, height: nat)
    requires Inv(cfg, s) && Follows(m, s.l) && s.task.Running? && QueuesAccounted(s.l)
    ensures Follows(NextPairs(cfg, s, m, FinishEv(snaps, height)),
                    Finish(cfg, s.l, s.task.epoch, s.task.clone, snaps, height).l)
  {
    hide PairInv, Accounted, Finish, InitLoop, FromNode, Loaded, CacheOk, Published, QueueOk;
    if s.task.epoch != s.l.epoch {
      StaleFinish(cfg, s.l, s.task.epoch, s.task.clone, snaps, height);
    } else if s.task.clone.None? {
      FinishInit(cfg, s.l, s.task.epoch, snaps, height);
      LoadedFollows(cfg, m, TakeCache(s.l), FromNode(snaps, height, 0));
    } else {
      CommitsAtLiveHeight(cfg, s, snaps, height);
    }
  }

  lemma StepFollows(cfg: Config, s: Sys, m: Machine, e: Event)
    requires Inv(cfg, s) && Enabled(s, e) && Follows(m, s.l)
    ensures QueuesAccounted(s.l) && Follows(NextPairs(cfg, s, m, e), Next(cfg, s, e).l)
  {
    hide Inv, PairInv, Accounted, Turn, Finish, ReceivedAll;
    FollowsAccounted(m, s.l);
    if e.TurnEv? {
      TurnFollows(cfg, m, s.l, e.records);
    } else if e.FinishEv? {
      FinishFollows(cfg, s, m, e.snaps, e.height);
    } else if e.FenceEv? || e.CrashEv? || (e.JoinEv? && !s.task.ok) {
      FencedFollows(Fence(s.l));
    }
  }

  ghost function RunPairs(cfg: Config, s: Sys, m: Machine, es: seq<Event>): Machine
    requires Inv(cfg, s) && Follows(m, s.l)
    decreases |es|
  {
    if es == [] || !Enabled(s, es[0]) then m
    else
      StepKeeps(cfg, s, es[0]);
      StepFollows(cfg, s, m, es[0]);
      RunPairs(cfg, Next(cfg, s, es[0]), NextPairs(cfg, s, m, es[0]), es[1..])
  }

  /**
   Over every run: the queues are those of the machine, and whenever the listener is ready it has
   popped exactly the ordered intersection of the batches accepted since the last fence.
   */
  lemma {:induction false} RunFollows(cfg: Config, s: Sys, m: Machine, es: seq<Event>)
    requires Inv(cfg, s) && Follows(m, s.l)
    ensures var r, n := RunEvents(cfg, s, es), RunPairs(cfg, s, m, es);
            r.Some? ==> Follows(n, r.value.l) && (r.value.l.live.Some? ==> Meets(n.s, n.t, n.out))
    decreases |es|
  {
    hide Inv, Next, Follows, NextPairs, Meets;
    if es == [] {
      ReadyMeets(cfg, s, m);
    } else if Enabled(s, es[0]) {
      StepKeeps(cfg, s, es[0]);
      StepFollows(cfg, s, m, es[0]);
      RunFollows(cfg, Next(cfg, s, es[0]), NextPairs(cfg, s, m, es[0]), es[1..]);
    }
  }

  lemma ReadyMeets(cfg: Config, s: Sys, m: Machine)
    requires Inv(cfg, s) && Follows(m, s.l)
    ensures s.l.live.Some? ==> Meets(m.s, m.t, m.out) && (m.a.items == [] || m.b.items == [])
  {
    hide PairInv, Meets, CacheOk, Published, AuditInv, QueueOk;
    if s.l.live.Some? {
      EmptyMeets(m);
    }
  }

  /**
   Two runs, however different, that leave ready listeners having accepted the same batches have
   popped the same pairs.
   */
  lemma RunsAgree(cfg: Config, s: Sys, m: Machine, s': Sys, m': Machine)
    requires Inv(cfg, s) && Follows(m, s.l) && Inv(cfg, s') && Follows(m', s'.l)
    requires s.l.live.Some? && s'.l.live.Some? && m.s == m'.s && m.t == m'.t
    ensures m.out == m'.out
  {
    hide PairInv, Meets, Inv;
    ReadyMeets(cfg, s, m);
    ReadyMeets(cfg, s', m');
    InterleavingIrrelevant(m, m');
  }
}
