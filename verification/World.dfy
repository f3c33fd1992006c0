/**
 The listener, one client connection and the broadcasts in flight between them. A run is any
 sequence of steps of either side; connections come and go, and lag behind the broadcasts as they
 like. Every frame a connection sends shows the first levels of the subscribed view of a state the
 listener was in, at the frame's height, and per subscription heights rise until it ends.
 */
module World {
  import opened Prelude
  import opened Buckets
  import opened Views
  import opened Blocks
  import opened Queues
  import opened BookState
  import opened Listeners
  import opened Protocol
  import opened Publication
  import opened Freshness
  import opened NodeChain
  import opened Truth
  import opened WireCache
  import opened Delivery

  /** `read` counts the broadcasts that the connection has taken. */
  datatype World = World(sys: Sys, conn: Conn, read: nat, open: bool)

  datatype Move =
    | ListenerMove(e: Event)                                       // anything the listener does
    | Connect                                                      // a client joins; it gets later broadcasts only
    | Deliver                                                      // the connection takes the next broadcast
    | Subscribe(sub: Subscription, universe: set<string>, ok: bool)
    | Unsubscribe(sub: Subscription, universe: set<string>)
    | Disconnect                                                   // for any reason, lagging too far behind included

  /** The current views, as a subscriber reads them. */
  function CurrentViews(l: Listener): Option<Shown> {
    if l.live.None? then None
    else
      var s := Refreshed(l.live.value);
      Some(Shown(s.cache, s.core.time, s.core.height))
  }

  /** Taking one broadcast: a gap ends the connection, views go to the subscriptions they are due for. */
  ghost predicate Takes(size: Size, c: Conn, m: Msg, c': Conn, open: bool) {
    match m
    case Gap => c' == c.(log := c.log + [Error]) && !open
    case L2(views, time, height) => Pushed(size, c, c', Shown(views, time, height))
    case _ => c' == c
  }

  ghost predicate Step(cfg: Config, size: Size, w: World, mv: Move, w': World)
    requires QueuesAccounted(w.sys.l)
  {
    match mv
    case ListenerMove(e) => Enabled(w.sys, e) && w' == w.(sys := Next(cfg, w.sys, e))
    case Connect => !w.open && w' == World(w.sys, NEW_CONN, |w.sys.l.out|, true)
    case Deliver =>
      && w.open && w.read < |w.sys.l.out| && w'.sys == w.sys && w'.read == w.read + 1
      && Takes(size, w.conn, w.sys.l.out[w.read], w'.conn, w'.open)
    case Subscribe(sub, universe, ok) =>
      && w.open && sub.L2Book? && w'.sys == w.sys.(l := Read(w.sys.l)) && w'.read == w.read && (w'.open ==> ok)
      && Answered(size, w.conn, w'.conn, sub, universe, CurrentViews(w.sys.l), ok)
    case Unsubscribe(sub, universe) =>
      && w.open && w'.sys == w.sys && w'.read == w.read && w'.open
      && Unsubscribed(w.conn, w'.conn, sub, universe)
    case Disconnect => w' == w.(open := false)
  }

  const START_WORLD := World(INIT, NEW_CONN, 0, false)

  /** ws is the run that the moves make from the start. */
  ghost predicate IsRun(cfg: Config, size: Size, ws: seq<World>, mvs: seq<Move>) {
    && |ws| == |mvs| + 1 && ws[0] == START_WORLD
    && forall i :: 0 <= i < |mvs| ==> QueuesAccounted(ws[i].sys.l) && Step(cfg, size, ws[i], mvs[i], ws[i + 1])
  }

  // ----- the listener's side

  /** What the listener does in a step. */
  ghost function ListenerEvent(mv: Move): Option<Event> {
    match mv
    case ListenerMove(e) => Some(e)
    case Subscribe(_, _, _) => Some(ReadEv)
    case _ => None
  }

  lemma StepListener(cfg: Config, size: Size, w: World, mv: Move, w': World)
    requires QueuesAccounted(w.sys.l) && Step(cfg, size, w, mv, w')
    ensures var e := ListenerEvent(mv);
            if e.Some? then Enabled(w.sys, e.value) && w'.sys == Next(cfg, w.sys, e.value) else w'.sys == w.sys
  {
    hide Turn, Finish, Pushed, Answered, Unsubscribed, ConnOk;
  }

  ghost predicate OwnedMoves(mvs: seq<Move>, f: Owner) {
    forall i :: 0 <= i < |mvs| && mvs[i].ListenerMove? ==> EventOwned(mvs[i].e, f)
  }

  lemma OwnedEvent(mvs: seq<Move>, f: Owner, i: nat)
    requires OwnedMoves(mvs, f) && i < |mvs| && ListenerEvent(mvs[i]).Some?
    ensures EventOwned(ListenerEvent(mvs[i]).value, f)
  {
  }

  /** A broadcast of views is the full rebuild of these live books, at their height and time. */
  ghost predicate ShownBy(live: Option<State>, m: Msg) {
    live.Some? && m == L2(AllViews(live.value.core.books), live.value.core.time, live.value.core.height)
  }

  /** At some point of the run so far. */
  ghost predicate WasLive(ws: seq<World>, i: nat, m: Msg)
    requires i < |ws|
  {
    exists j :: 0 <= j <= i && ShownBy(ws[j].sys.l.live, m)
  }

  ghost predicate OutWasLive(ws: seq<World>, i: nat)
    requires i < |ws|
  {
    forall k :: 0 <= k < |ws[i].sys.l.out| && ws[i].sys.l.out[k].L2? ==> WasLive(ws, i, ws[i].sys.l.out[k])
  }

  lemma WasLiveLater(ws: seq<World>, i: nat, m: Msg)
    requires i + 1 < |ws| && WasLive(ws, i, m)
    ensures WasLive(ws, i + 1, m)
  {
    var j :| 0 <= j <= i && ShownBy(ws[j].sys.l.live, m);
    assert 0 <= j <= i + 1 && ShownBy(ws[j].sys.l.live, m);
  }

  lemma OutStep(ws: seq<World>, i: nat)
    requires i + 1 < |ws| && OutWasLive(ws, i)
    requires var l, l' := ws[i].sys.l, ws[i + 1].sys.l; l.out <= l'.out && Rebuilds(News(l, l'), l'.live)
    ensures OutWasLive(ws, i + 1)
  {
    hide AllViews;
    var l, l' := ws[i].sys.l, ws[i + 1].sys.l;
    forall k | 0 <= k < |l'.out| && l'.out[k].L2? ensures WasLive(ws, i + 1, l'.out[k]) {
      if k < |l.out| {
        WasLiveLater(ws, i, l'.out[k]);
      } else {
        assert News(l, l')[k - |l.out|] == l'.out[k];
        assert ShownBy(ws[i + 1].sys.l.live, l'.out[k]);
      }
    }
  }

  lemma SameOutStep(ws: seq<World>, i: nat)
    requires i + 1 < |ws| && OutWasLive(ws, i) && ws[i + 1].sys.l.out == ws[i].sys.l.out
    ensures OutWasLive(ws, i + 1)
  {
    hide AllViews, ShownBy;
    forall k | 0 <= k < |ws[i].sys.l.out| && ws[i].sys.l.out[k].L2? ensures WasLive(ws, i + 1, ws[i].sys.l.out[k]) {
      WasLiveLater(ws, i, ws[i].sys.l.out[k]);
    }
  }

  // ----- the connection's side

  /** The frame shows the first levels of the subscribed view of these live books, at their height and time. */
  ghost predicate FrameOfLive(live: Option<State>, x: Sent)
    requires x.BookFrame?
  {
    && live.Some? && x.sub.L2Book? && Offered(Precision(x.sub.figs, x.sub.mantissa))
    && x.frame == FrameOf(live.value.core.books, live.value.core.time, live.value.core.height, x.sub)
  }

  ghost predicate FrameWasLive(ws: seq<World>, i: nat, x: Sent)
    requires i < |ws| && x.BookFrame?
  {
    exists j :: 0 <= j <= i && FrameOfLive(ws[j].sys.l.live, x)
  }

  ghost predicate LogWasLive(ws: seq<World>, i: nat)
    requires i < |ws|
  {
    forall k :: 0 <= k < |ws[i].conn.log| && ws[i].conn.log[k].BookFrame? ==> FrameWasLive(ws, i, ws[i].conn.log[k])
  }

  /** The same, of the entries from the n-th on. */
  ghost predicate LogFrom(ws: seq<World>, i: nat, n: nat)
    requires i < |ws|
  {
    forall k :: n <= k < |ws[i].conn.log| && ws[i].conn.log[k].BookFrame? ==> FrameWasLive(ws, i, ws[i].conn.log[k])
  }

  lemma FrameWasLiveLater(ws: seq<World>, i: nat, x: Sent)
    requires i + 1 < |ws| && x.BookFrame? && FrameWasLive(ws, i, x)
    ensures FrameWasLive(ws, i + 1, x)
  {
    var j :| 0 <= j <= i && FrameOfLive(ws[j].sys.l.live, x);
    assert 0 <= j <= i + 1 && FrameOfLive(ws[j].sys.l.live, x);
  }

  /** Old entries stay, and every new frame has been shown to be of a live state. */
  lemma LogStep(ws: seq<World>, i: nat)
    requires i + 1 < |ws| && LogWasLive(ws, i)
    requires ws[i].conn.log <= ws[i + 1].conn.log || ws[i + 1].conn.log == []
    requires LogFrom(ws, i + 1, |ws[i].conn.log|)
    ensures LogWasLive(ws, i + 1)
  {
    hide FrameOfLive;
    var log := ws[i + 1].conn.log;
    forall k | 0 <= k < |log| && log[k].BookFrame? ensures FrameWasLive(ws, i + 1, log[k]) {
      if k < |ws[i].conn.log| {
        assert log[k] == ws[i].conn.log[k];
        FrameWasLiveLater(ws, i, log[k]);
      }
    }
  }

  /** Whatever a broadcast adds to the log shows a state that was live. */
  lemma TakenWasLive(size: Size, ws: seq<World>, i: nat)
    requires i + 1 < |ws| && OutWasLive(ws, i) && ConnOk(ws[i].conn) && ws[i].read < |ws[i].sys.l.out|
    requires Takes(size, ws[i].conn, ws[i].sys.l.out[ws[i].read], ws[i + 1].conn, ws[i + 1].open)
    ensures ws[i].conn.log <= ws[i + 1].conn.log
    ensures LogFrom(ws, i + 1, |ws[i].conn.log|)
  {
    hide Encoded, AllViews, FrameOf, Rising, LastHeight;
    var m, log, log' := ws[i].sys.l.out[ws[i].read], ws[i].conn.log, ws[i + 1].conn.log;
    if m.L2? {
      assert WasLive(ws, i, m);
      var j :| 0 <= j <= i && ShownBy(ws[j].sys.l.live, m);
      var c := ws[j].sys.l.live.value.core;
      forall k | |log| <= k < |log'| && log'[k].BookFrame? ensures FrameWasLive(ws, i + 1, log'[k]) {
        FrameShowsBooks(c.books, c.time, c.height, log'[k].sub, size);
        assert FrameOfLive(ws[j].sys.l.live, log'[k]);
      }
    }
  }

  /** The frame that comes with a subscription shows the live state. */
  lemma AnsweredWasLive(size: Size, ws: seq<World>, i: nat, sub: Subscription, universe: set<string>, ok: bool)
    requires i + 1 < |ws| && sub.L2Book? && FreshLive(ws[i].sys.l.live) && ConnOk(ws[i + 1].conn)
    requires Answered(size, ws[i].conn, ws[i + 1].conn, sub, universe, CurrentViews(ws[i].sys.l), ok)
    ensures ws[i].conn.log <= ws[i + 1].conn.log
    ensures LogFrom(ws, i + 1, |ws[i].conn.log|)
  {
    hide Encoded, FrameOf, Rising, LastHeight, Refreshed, CacheAgrees, ValidSubscription;
    var log, log' := ws[i].conn.log, ws[i + 1].conn.log;
    forall k | |log| <= k < |log'| && log'[k].BookFrame? ensures FrameWasLive(ws, i + 1, log'[k]) {
      var s := ws[i].sys.l.live.value;
      assert log'[k].sub == sub && sub in ws[i + 1].conn.subs;
      SnappedCore(s);
      FrameShowsLive(s, sub, size);
      assert FrameOfLive(ws[i].sys.l.live, log'[k]);
    }
  }

  // ----- every step, every run

  ghost predicate WorldInv(cfg: Config, f: Owner, ws: seq<World>, i: nat)
    requires i < |ws|
  {
    Inv(cfg, ws[i].sys) && FreshSys(ws[i].sys, f) && ConnOk(ws[i].conn) && OutWasLive(ws, i) && LogWasLive(ws, i)
  }

  lemma ListenerSide(cfg: Config, size: Size, f: Owner, ws: seq<World>, mvs: seq<Move>, i: nat)
    requires IsRun(cfg, size, ws, mvs) && OwnedMoves(mvs, f) && cfg.ignoreSpot == f.ignoreSpot && i < |mvs|
    requires WorldInv(cfg, f, ws, i)
    ensures Inv(cfg, ws[i + 1].sys) && FreshSys(ws[i + 1].sys, f) && OutWasLive(ws, i + 1)
  {
    hide Step, Inv, FreshSys, ConnOk, LogWasLive, OutWasLive, Accounted, Next, EventOwned;
    var s := ws[i].sys;
    StepListener(cfg, size, ws[i], mvs[i], ws[i + 1]);
    if ListenerEvent(mvs[i]).Some? {
      var e := ListenerEvent(mvs[i]).value;
      OwnedEvent(mvs, f, i);
      StepKeeps(cfg, s, e);
      StepFresh(cfg, s, e, f);
      OutStep(ws, i);
    } else {
      SameOutStep(ws, i);
    }
  }

  /** Taking a broadcast, gaps included, keeps the log rising and the positions right. */
  lemma TakesOk(size: Size, c: Conn, m: Msg, c': Conn, open: bool)
    requires ConnOk(c) && Takes(size, c, m, c', open)
    ensures ConnOk(c')
  {
    hide ConnOk, Pushed;
    OtherOk(c, Error);
    if m.L2? {
      PushedOk(size, c, c', Shown(m.views, m.time, m.height));
    }
  }

  lemma NewConnOk()
    ensures ConnOk(NEW_CONN)
  {
  }

  /** Whatever either side does. */
  lemma StepConnOk(cfg: Config, size: Size, w: World, mv: Move, w': World)
    requires QueuesAccounted(w.sys.l) && ConnOk(w.conn) && Step(cfg, size, w, mv, w')
    ensures ConnOk(w'.conn)
  {
    hide ConnOk, Takes, Answered, Unsubscribed, Accounted, Next, Read, CurrentViews;
    NewConnOk();
    match mv {
      case Deliver =>
        TakesOk(size, w.conn, w.sys.l.out[w.read], w'.conn, w'.open);
      case Subscribe(sub, universe, ok) =>
        AnsweredOk(size, w.conn, w'.conn, sub, universe, CurrentViews(w.sys.l), ok);
      case Unsubscribe(sub, universe) =>
        UnsubscribedOk(w.conn, w'.conn, sub, universe);
      case _ =>
    }
  }

  lemma ConnectionSide(cfg: Config, size: Size, f: Owner, ws: seq<World>, mvs: seq<Move>, i: nat)
    requires IsRun(cfg, size, ws, mvs) && i < |mvs| && WorldInv(cfg, f, ws, i)
    ensures ConnOk(ws[i + 1].conn) && LogWasLive(ws, i + 1)
  {
    hide Inv, ConnOk, LogWasLive, OutWasLive, Accounted, Next, Encoded, ValidSubscription, Read, FreshListener,
         CurrentViews;
    var w, w' := ws[i], ws[i + 1];
    StepConnOk(cfg, size, w, mvs[i], w');
    match mvs[i] {
      case Deliver =>
        TakenWasLive(size, ws, i);
      case Subscribe(sub, universe, ok) =>
        LiveFresh(w.sys, f);
        AnsweredWasLive(size, ws, i, sub, universe, ok);
      case _ =>
    }
    LogStep(ws, i);
  }

  lemma LiveFresh(s: Sys, f: Owner)
    requires FreshSys(s, f)
    ensures FreshLive(s.l.live)
  {
    hide CacheAgrees;
  }

  /**
   In every run, at every point: each frame in the connection's log shows exactly the first n
   levels of the subscribed precision's view of a live state of the listener at the frame's height
   and time, and the log is rising, whatever broadcasts were still queued behind a first frame.
   */
  lemma {:induction false} FramesShowLiveStates(cfg: Config, size: Size, f: Owner, ws: seq<World>, mvs: seq<Move>,
                                                i: nat)
    requires IsRun(cfg, size, ws, mvs) && OwnedMoves(mvs, f) && cfg.ignoreSpot == f.ignoreSpot && i < |ws|
    ensures WorldInv(cfg, f, ws, i)
    ensures LogWasLive(ws, i) && Rising(ws[i].conn.log)
    decreases i
  {
    if i == 0 {
      InitInv(cfg);
      NewConnOk();
    } else {
      FramesShowLiveStates(cfg, size, f, ws, mvs, i - 1);
      hide IsRun, OwnedMoves, Inv, FreshSys, LogWasLive, OutWasLive;
      ListenerSide(cfg, size, f, ws, mvs, i - 1);
      ConnectionSide(cfg, size, f, ws, mvs, i - 1);
    }
  }

  // ----- with a truthful node

  ghost predicate TrueMoves(n: Node, mvs: seq<Move>, ignoreSpot: bool) {
    forall i :: 0 <= i < |mvs| && mvs[i].ListenerMove? ==> TrueEvent(n, mvs[i].e, ignoreSpot)
  }

  /**
   The frame shows the first levels of the subscribed view of the node's book at its height; ignored
   coins are left out.
   */
  ghost predicate TrueFrame(n: Node, loads: set<nat>, x: Sent, ignoreSpot: bool)
    requires x.BookFrame?
  {
    var h := x.frame.height;
    && x.sub.L2Book? && Offered(Precision(x.sub.figs, x.sub.mantissa))
    && Covers(n, h) && TrueTime(n, loads, x.frame.time, h, ignoreSpot)
    && (!Ignored(x.sub.coin, ignoreSpot) ==> x.frame == FrameOf(At(n, h, ignoreSpot).books, x.frame.time, h, x.sub))
  }

  ghost predicate TrueLog(n: Node, loads: set<nat>, log: seq<Sent>, ignoreSpot: bool) {
    forall k :: 0 <= k < |log| && log[k].BookFrame? ==> TrueFrame(n, loads, log[k], ignoreSpot)
  }

  lemma TrueLogMore(n: Node, loads: set<nat>, more: set<nat>, log: seq<Sent>, ignoreSpot: bool)
    requires TrueLog(n, loads, log, ignoreSpot) && loads <= more
    ensures TrueLog(n, more, log, ignoreSpot)
  {
    hide At, FrameOf;
  }

  /** The loads up to each point of a run. */
  ghost function WorldLoads(cfg: Config, size: Size, ws: seq<World>, mvs: seq<Move>, i: nat): Loads
    requires IsRun(cfg, size, ws, mvs) && i < |ws|
    decreases i
  {
    if i == 0 then [] else StepLoads(cfg, size, ws[i - 1], mvs[i - 1], ws[i], WorldLoads(cfg, size, ws, mvs, i - 1))
  }

  ghost function StepLoads(cfg: Config, size: Size, w: World, mv: Move, w': World, loads: Loads): Loads
    requires QueuesAccounted(w.sys.l) && Step(cfg, size, w, mv, w')
  {
    StepListener(cfg, size, w, mv, w');
    var e := ListenerEvent(mv);
    if e.Some? then NextLoads(cfg, w.sys, e.value, loads) else loads
  }

  /** A frame of any views that are the node's. */
  lemma EncodedTrue(n: Node, loads: set<nat>, x: Shown, sub: Subscription, size: Size, ignoreSpot: bool)
    requires TrueMsg(n, loads, L2(x.views, x.time, x.height), ignoreSpot)
    requires sub.L2Book? && Offered(Precision(sub.figs, sub.mantissa))
    ensures var r := Encoded(size, sub, x.views, x.time, x.height);
            r.Found? ==> TrueFrame(n, loads, BookFrame(sub, r.frame), ignoreSpot)
  {
    EncodedPosition(size, sub, x.views, x.time, x.height);
    hide Encoded, At, FrameOf, ShowsBooks;
    if !Ignored(sub.coin, ignoreSpot) {
      FrameShowsNode(n, loads, L2(x.views, x.time, x.height), sub, size, ignoreSpot);
    }
  }

  lemma TakenTrue(n: Node, loads: set<nat>, size: Size, c: Conn, m: Msg, c': Conn, open: bool, ignoreSpot: bool)
    requires TrueMsg(n, loads, m, ignoreSpot) && ConnOk(c) && TrueLog(n, loads, c.log, ignoreSpot)
    requires Takes(size, c, m, c', open)
    ensures TrueLog(n, loads, c'.log, ignoreSpot)
  {
    hide Encoded, TrueFrame, Rising, LastHeight, TrueMsg;
    if m.L2? {
      var x := Shown(m.views, m.time, m.height);
      forall k | 0 <= k < |c'.log| && c'.log[k].BookFrame? ensures TrueFrame(n, loads, c'.log[k], ignoreSpot) {
        if k < |c.log| {
          assert c'.log[k] == c.log[k];
        } else {
          EncodedTrue(n, loads, x, c'.log[k].sub, size, ignoreSpot);
        }
      }
    }
  }

  /** What a subscriber reads is as true as what is broadcast. */
  lemma CurrentTrue(n: Node, loads: set<nat>, s: State, ignoreSpot: bool)
    requires TrueState(n, loads, s, ignoreSpot)
    ensures TrueMsg(n, loads, L2(Refreshed(s).cache, s.core.time, s.core.height), ignoreSpot)
  {
    hide ViewsOf, At, Covers;
    RefreshIsRebuild(s);
    ShowsSame(s.core.books, At(n, s.core.height, ignoreSpot).books, ignoreSpot);
  }

  lemma AnsweredTrue(n: Node, loads: set<nat>, size: Size, c: Conn, c': Conn, sub: Subscription, universe: set<string>,
                     l: Listener,
                     ok: bool, ignoreSpot: bool)
    requires TrueLive(n, loads, l.live, ignoreSpot) && TrueLog(n, loads, c.log, ignoreSpot) && ConnOk(c') && sub.L2Book?
    requires Answered(size, c, c', sub, universe, CurrentViews(l), ok)
    ensures TrueLog(n, loads, c'.log, ignoreSpot)
  {
    hide Encoded, TrueFrame, Rising, LastHeight, TrueMsg, TrueState, Refreshed, ValidSubscription;
    forall k | 0 <= k < |c'.log| && c'.log[k].BookFrame? ensures TrueFrame(n, loads, c'.log[k], ignoreSpot) {
      if k < |c.log| {
        assert c'.log[k] == c.log[k];
      } else {
        var s := l.live.value;
        SnappedCore(s);
        CurrentTrue(n, loads, s, ignoreSpot);
        EncodedTrue(n, loads, CurrentViews(l).value, sub, size, ignoreSpot);
      }
    }
  }

  ghost predicate WorldTrue(cfg: Config, n: Node, loads: Loads, w: World) {
    Inv(cfg, w.sys) && TrueSys(n, loads, w.sys, cfg.ignoreSpot) && ConnOk(w.conn)
      && TrueLog(n, AllLoads(loads), w.conn.log, cfg.ignoreSpot)
  }

  lemma StepWorldTrue(cfg: Config, size: Size, n: Node, loads: Loads, w: World, mv: Move, w': World)
    requires NodeOk(n, cfg.ignoreSpot) && WorldTrue(cfg, n, loads, w) && QueuesAccounted(w.sys.l)
    requires Step(cfg, size, w, mv, w')
    requires mv.ListenerMove? ==> TrueEvent(n, mv.e, cfg.ignoreSpot)
    ensures ConnOk(w'.conn) && TrueLog(n, AllLoads(loads), w'.conn.log, cfg.ignoreSpot)
  {
    hide NodeOk, Inv, ConnOk, TrueLog, Accounted, Next, Encoded, Read, CurrentViews, AllLoads, LastLoad, TrueEvent,
         TrueQueues, TrueBlocks, TrueMsg, Answered, TimedLive;
    StepConnOk(cfg, size, w, mv, w');
    ErrorTrue(n, AllLoads(loads), w.conn.log, Error, cfg.ignoreSpot);
    match mv {
      case Deliver =>
        TakenTrue(n, AllLoads(loads), size, w.conn, w.sys.l.out[w.read], w'.conn, w'.open, cfg.ignoreSpot);
      case Subscribe(sub, universe, ok) =>
        AnsweredTrue(n, AllLoads(loads), size, w.conn, w'.conn, sub, universe, w.sys.l, ok, cfg.ignoreSpot);
      case Unsubscribe(sub, universe) =>
        ErrorTrue(n, AllLoads(loads), w.conn.log, Ended(sub), cfg.ignoreSpot);
      case Connect => NothingTrue(n, AllLoads(loads), cfg.ignoreSpot);
      case _ =>
    }
  }

  lemma ErrorTrue(n: Node, loads: set<nat>, log: seq<Sent>, m: Sent, ignoreSpot: bool)
    requires TrueLog(n, loads, log, ignoreSpot) && !m.BookFrame?
    ensures TrueLog(n, loads, log + [m], ignoreSpot)
  {
    hide TrueFrame;
  }

  lemma NothingTrue(n: Node, loads: set<nat>, ignoreSpot: bool)
    ensures TrueLog(n, loads, [], ignoreSpot)
  {
  }

  /**
   In every run with a truthful node, at every point: each frame in the connection's log shows
   exactly the first n levels of the subscribed precision's view of the node's book at the frame's
   height, and per subscription the heights rise.
   */
  lemma {:induction false} FramesShowNode(cfg: Config, size: Size, n: Node, ws: seq<World>, mvs: seq<Move>, i: nat)
    requires NodeOk(n, cfg.ignoreSpot) && IsRun(cfg, size, ws, mvs) && TrueMoves(n, mvs, cfg.ignoreSpot) && i < |ws|
    ensures WorldTrue(cfg, n, WorldLoads(cfg, size, ws, mvs, i), ws[i])
    ensures Rising(ws[i].conn.log)
    decreases i
  {
    hide NodeOk, WorldTrue, Step, StepLoads, TrueEvent, ConnOk;
    if i == 0 {
      StartWorldTrue(cfg, n);
    } else {
      FramesShowNode(cfg, size, n, ws, mvs, i - 1);
      NextWorldTrue(cfg, size, n, WorldLoads(cfg, size, ws, mvs, i - 1), ws[i - 1], mvs[i - 1], ws[i]);
    }
    WorldRising(cfg, n, WorldLoads(cfg, size, ws, mvs, i), ws[i]);
  }

  lemma StartWorldTrue(cfg: Config, n: Node)
    ensures WorldTrue(cfg, n, [], START_WORLD)
  {
    InitInv(cfg);
    NewConnOk();
    StartTrue(n, cfg.ignoreSpot);
    hide Inv, TrueSys, ConnOk;
  }

  lemma WorldRising(cfg: Config, n: Node, loads: Loads, w: World)
    requires WorldTrue(cfg, n, loads, w)
    ensures Rising(w.conn.log)
  {
    hide Inv, TrueSys, TrueLog, LastHeight;
  }

  lemma NextWorldTrue(cfg: Config, size: Size, n: Node, loads: Loads, w: World, mv: Move, w': World)
    requires NodeOk(n, cfg.ignoreSpot) && WorldTrue(cfg, n, loads, w) && QueuesAccounted(w.sys.l)
    requires Step(cfg, size, w, mv, w')
    requires mv.ListenerMove? ==> TrueEvent(n, mv.e, cfg.ignoreSpot)
    ensures WorldTrue(cfg, n, StepLoads(cfg, size, w, mv, w', loads), w')
  {
    hide NodeOk, Inv, TrueSys, Step, TrueLog, AllLoads, Next, ConnOk, Accounted;
    StepListener(cfg, size, w, mv, w');
    StepWorldTrue(cfg, size, n, loads, w, mv, w');
    var e := ListenerEvent(mv);
    if e.Some? {
      ReadIsTrue(n, cfg.ignoreSpot);
      StepKeeps(cfg, w.sys, e.value);
      StepTrue(cfg, n, loads, w.sys, e.value);
      LoadsGrow(loads, if e.value.FinishEv? then e.value.height else 0);
      TrueLogMore(n, AllLoads(loads), AllLoads(NextLoads(cfg, w.sys, e.value, loads)), w'.conn.log, cfg.ignoreSpot);
    }
  }

  lemma ReadIsTrue(n: Node, ignoreSpot: bool)
    ensures TrueEvent(n, ReadEv, ignoreSpot)
  {
  }
}
