/**
 One client connection: its subscriptions, the last height sent for each, and the log of what it
 sent. Broadcasts may be queued behind an immediate snapshot and be older than it; between a
 subscribe and its unsubscribe the delivered heights nevertheless strictly increase.
 */
module Delivery {
  import opened Prelude
  import opened Buckets
  import opened Views
  import opened FlatBook
  import opened Blocks
  import opened Scopes
  import opened BookState
  import opened WireCache
  import L = Listeners
  import opened NodeChain
  import T = Truth

  datatype Sent =
    | BookFrame(sub: Subscription, frame: Frame)
    | Accepted(sub: Subscription)
    | Ended(sub: Subscription)
    | Error

  // ----- the log

  /** The latest height sent for a subscription since it was last ended. */
  function LastHeight(log: seq<Sent>, sub: Subscription): Option<nat> {
    if log == [] then None
    else
      var m := log[|log| - 1];
      if m.BookFrame? && m.sub == sub then Some(m.frame.height)
      else if m.Ended? && m.sub == sub then None
      else LastHeight(log[..|log| - 1], sub)
  }

  ghost predicate Rising(log: seq<Sent>) {
    forall i :: 0 <= i < |log| && log[i].BookFrame? ==>
      var h := LastHeight(log[..i], log[i].sub); h.Some? ==> h.value < log[i].frame.height
  }

  lemma LastHeightAppend(log: seq<Sent>, m: Sent, sub: Subscription)
    ensures LastHeight(log + [m], sub) ==
            if m.BookFrame? && m.sub == sub then Some(m.frame.height)
            else if m.Ended? && m.sub == sub then None else LastHeight(log, sub)
  {
    assert (log + [m])[..|log|] == log;
  }

  lemma RisingAppend(log: seq<Sent>, m: Sent)
    requires Rising(log)
    requires m.BookFrame? && LastHeight(log, m.sub).Some? ==> LastHeight(log, m.sub).value < m.frame.height
    ensures Rising(log + [m])
  {
    hide LastHeight;
    var log' := log + [m];
    forall i | 0 <= i < |log'| && log'[i].BookFrame?
      ensures var h := LastHeight(log'[..i], log'[i].sub); h.Some? ==> h.value < log'[i].frame.height
    {
      if i < |log| {
        assert log'[..i] == log[..i];
      } else {
        assert log'[..i] == log;
      }
    }
  }

  /** Two frames of one subscription with no end of it in between have increasing heights. */
  lemma {:induction false} RisingBetween(log: seq<Sent>, i: nat, j: nat)
    requires Rising(log) && i < j < |log| && log[i].BookFrame? && log[j].BookFrame? && log[j].sub == log[i].sub
    requires forall k :: i < k < j ==> log[k] != Ended(log[i].sub)
    ensures log[i].frame.height < log[j].frame.height
  {
    AtLeast(log, i, j);
  }

  lemma {:induction false} AtLeast(log: seq<Sent>, i: nat, j: nat)
    requires Rising(log) && i < j <= |log| && log[i].BookFrame?
    requires forall k :: i < k < j ==> log[k] != Ended(log[i].sub)
    ensures var h := LastHeight(log[..j], log[i].sub); h.Some? && h.value >= log[i].frame.height
    decreases j
  {
    assert log[..j][..j - 1] == log[..j - 1];
    if i < j - 1 {
      AtLeast(log, i, j - 1);
    }
  }

  // ----- the connection

  /** Whether a position is news to the subscription and has a view for it. */
  ghost predicate Due(positions: map<Subscription, nat>, size: Size, sub: Subscription, views: ViewMap, time: nat,
                      height: nat) {
    && sub.L2Book? && (sub in positions ==> positions[sub] < height)
    && Encoded(size, sub, views, time, height).Found?
  }

  datatype SendReply = Delivered | Skipped | Failed

  /** A connection as a value: subscriptions, the latest height sent for each, and everything sent. */
  datatype Conn = Conn(subs: set<Subscription>, positions: map<Subscription, nat>, log: seq<Sent>)

  const NEW_CONN := Conn({}, map[], [])

  /** The positions are the latest heights in the log, of current subscriptions only, all of which are valid. */
  ghost predicate ConnOk(c: Conn) {
    && Rising(c.log)
    && (forall sub :: LastHeight(c.log, sub) == if sub in c.positions then Some(c.positions[sub]) else None)
    && c.positions.Keys <= c.subs
    && (forall sub :: sub in c.subs && sub.L2Book? ==> Offered(Precision(sub.figs, sub.mantissa)))
  }

  /** A snapshot as broadcast or read: views with their time and height. */
  datatype Shown = Shown(views: ViewMap, time: nat, height: nat)

  /** The subscriptions that the entries from the i-th to before the j-th are frames of. */
  ghost function Receivers(log: seq<Sent>, i: nat, j: nat): set<Subscription>
    requires i <= j <= |log|
  {
    set k | i <= k < j && log[k].BookFrame? :: log[k].sub
  }

  /** The positions once these subscriptions have been sent the height. */
  ghost function Recorded(positions: map<Subscription, nat>, subs: set<Subscription>,
                          height: nat): map<Subscription, nat> {
    positions + (map sub | sub in subs :: height)
  }

  /** The entry is the right frame, to a subscription that it is due for. */
  ghost predicate RightFrame(size: Size, c: Conn, m: Sent, x: Shown) {
    && m.BookFrame? && m.sub in c.subs && Due(c.positions, size, m.sub, x.views, x.time, x.height)
    && Encoded(size, m.sub, x.views, x.time, x.height) == Found(m.frame)
  }

  /**
   What a broadcast may do: add right frames to the log, one for each of some subscriptions, and
   record the height for them.
   */
  ghost predicate Pushed(size: Size, c: Conn, c': Conn, x: Shown) {
    && c'.subs == c.subs && c.log <= c'.log
    && (forall k :: |c.log| <= k < |c'.log| ==> RightFrame(size, c, c'.log[k], x))
    && (forall j, k :: |c.log| <= j < k < |c'.log| ==> c'.log[j].sub != c'.log[k].sub)
    && c'.positions == Recorded(c.positions, Receivers(c'.log, |c.log|, |c'.log|), x.height)
  }

  /** Every book subscription that the broadcast has a view for has been sent that height, or a later one. */
  ghost predicate Reached(size: Size, c: Conn, x: Shown) {
    forall s :: s in c.subs && s.L2Book? && Encoded(size, s, x.views, x.time, x.height).Found? ==>
      s in c.positions && c.positions[s] >= x.height
  }

  /** A book subscription: accepted with a first frame, answered by an error, or given up with the connection. */
  ghost predicate Answered(size: Size, c: Conn, c': Conn, sub: Subscription, universe: set<string>, x: Option<Shown>,
                           ok: bool) {
    if !ok then
      && sub !in c.subs && ValidSubscription(sub, universe) && c'.subs == c.subs + {sub} && c'.positions == c.positions
      && (c'.log == c.log || c'.log == c.log + [Accepted(sub)])
    else if sub in c'.subs && sub !in c.subs then
      && x.Some? && ValidSubscription(sub, universe)
      && var r := Encoded(size, sub, x.value.views, x.value.time, x.value.height);
         && r.Found?
         && c' == Conn(c.subs + {sub}, c.positions[sub := x.value.height],
                       c.log + [Accepted(sub), BookFrame(sub, r.frame)])
    else c' == c.(log := c.log + [Error])
  }

  ghost predicate Unsubscribed(c: Conn, c': Conn, sub: Subscription, universe: set<string>) {
    if ValidSubscription(sub, universe) && sub in c.subs
    then c' == Conn(c.subs - {sub}, c.positions - {sub}, c.log + [Ended(sub)])
    else c' == c.(log := c.log + [Error])
  }

  class Connection {
    const cache: BookWireCache
    var subscriptions: set<Subscription>
    var sentPositions: map<Subscription, nat>
    var log: seq<Sent>

    ghost function Value(): Conn
      reads this
    {
      Conn(subscriptions, sentPositions, log)
    }

    ghost predicate Valid()
      reads this
    {
      ConnOk(Value())
    }

    constructor (cache: BookWireCache)
      ensures Valid() && this.cache == cache && Value() == NEW_CONN
    {
      this.cache := cache;
      subscriptions, sentPositions, log := {}, map[], [];
    }

    /** `recent` says the source time is within three seconds, `written` that the write succeeded in time. */
    method SendFromSnapshot(sub: Subscription, mem: Memory, addr: nat, time: nat, height: nat, recent: bool,
                            written: bool)
      returns (r: SendReply)
      requires Valid() && sub in subscriptions && cache.Valid(mem) && addr in mem
      modifies this, cache
      ensures cache.Valid(mem) && subscriptions == old(subscriptions) && Valid()
      ensures r == Delivered ==>
                && Due(old(sentPositions), cache.size, sub, mem[addr], time, height)
                && log == old(log) + [BookFrame(sub, Encoded(cache.size, sub, mem[addr], time, height).frame)]
                && sentPositions == old(sentPositions)[sub := height]
      ensures r == Skipped ==> !Due(old(sentPositions), cache.size, sub, mem[addr], time, height)
      ensures r != Delivered ==> log == old(log) && sentPositions == old(sentPositions)
      ensures && recent && written && sub.L2Book? && (sub in old(sentPositions) ==> old(sentPositions)[sub] < height)
              && Encoded(cache.size, sub, mem[addr], time, height).Found?
              ==> r == Delivered
      ensures r == Failed ==> !recent || !written || Encoded(cache.size, sub, mem[addr], time, height).TooBig?
    {
      hide Encoded, LastHeight, Rising, Bytes;
      if !sub.L2Book? {
        return Skipped;
      }
      if !recent {
        return Failed;
      }
      if sub in sentPositions && height <= sentPositions[sub] {
        return Skipped;
      }
      var encoded := cache.Get(sub, mem, addr, time, height);
      if encoded.TooBig? {
        return Failed;
      }
      if encoded.NoView? {
        return Skipped;
      }
      if !written {
        return Failed;
      }
      EncodedPosition(cache.size, sub, mem[addr], time, height);
      LogFrame(sub, encoded.frame);
      r := Delivered;
    }

    method LogFrame(sub: Subscription, f: Frame)
      requires Valid() && sub in subscriptions && (sub in sentPositions ==> sentPositions[sub] < f.height)
      modifies `log, `sentPositions
      ensures Valid() && log == old(log) + [BookFrame(sub, f)] && sentPositions == old(sentPositions)[sub := f.height]
    {
      hide ConnOk;
      FrameOk(Value(), sub, f);
      log := log + [BookFrame(sub, f)];
      sentPositions := sentPositions[sub := f.height];
    }

    /** Anything that is neither a frame nor an end. */
    method LogOther(m: Sent)
      requires Valid() && !m.BookFrame? && !m.Ended?
      modifies `log
      ensures Valid() && log == old(log) + [m]
    {
      hide ConnOk;
      OtherOk(Value(), m);
      log := log + [m];
    }

    /** A broadcast goes to every subscription it is due for, once; any failure ends the connection. */
    method OnSnapshot(mem: Memory, addr: nat, time: nat, height: nat, recent: Subscription -> bool,
                      written: Subscription -> bool)
      returns (ok: bool)
      requires Valid() && cache.Valid(mem) && addr in mem
      modifies this, cache
      ensures cache.Valid(mem) && Valid()
      ensures Pushed(cache.size, old(Value()), Value(), Shown(mem[addr], time, height))
      ensures ok ==> Reached(cache.size, Value(), Shown(mem[addr], time, height))
      ensures !ok ==>
                exists s :: && s in subscriptions
                            && (!recent(s) || !written(s) || Encoded(cache.size, s, mem[addr], time, height).TooBig?)
    {
      hide Encoded, ConnOk, Bytes, Pushed, BookWireCache.Valid;
      ghost var c, x := Value(), Shown(mem[addr], time, height);
      NothingPushed(cache.size, c, x);
      var todo := subscriptions;
      while todo != {}
        invariant Valid() && cache.Valid(mem) && subscriptions == c.subs && todo <= subscriptions
        invariant Pushed(cache.size, c, Value(), x) && c.log <= log
        invariant Receivers(log, |c.log|, |log|) !! todo
        invariant forall s :: s in subscriptions - todo && s.L2Book?
                    && Encoded(cache.size, s, x.views, x.time, x.height).Found?
                    ==> s in sentPositions && sentPositions[s] >= height
        decreases |todo|
      {
        var sub :| sub in todo;
        todo := todo - {sub};
        ghost var before := Value();
        var r := SendFromSnapshot(sub, mem, addr, time, height, recent(sub), written(sub));
        if r == Failed {
          return false;
        }
        PositionKept(cache.size, c, before, x, sub);
        if r == Delivered {
          PushedOne(cache.size, c, before, Value(), x, sub);
        }
      }
      ok := true;
    }

    /**
     A new book subscription is accepted only together with a first frame, which shows the given
     position; otherwise the subscription is undone.
     */
    method SubscribeBook(sub: Subscription, universe: set<string>, mem: Memory, current: Option<Position>, recent: bool,
                         written: bool)
      returns (ok: bool)
      requires Valid() && cache.Valid(mem) && sub.L2Book? && (current.Some? ==> current.value.addr in mem)
      modifies this, cache
      ensures cache.Valid(mem) && Valid()
      ensures var x := if current.None? then None
                       else Some(Shown(mem[current.value.addr], current.value.time, current.value.height));
              Answered(cache.size, old(Value()), Value(), sub, universe, x, ok)
      ensures && ValidSubscription(sub, universe) && sub !in old(subscriptions)
              && |old(subscriptions)| < MAX_SUBSCRIPTIONS && current.Some? && recent && written
              && Encoded(cache.size, sub, mem[current.value.addr], current.value.time, current.value.height).Found?
              ==> ok && sub in subscriptions
    {
      hide ConnOk, Encoded, Bytes, ValidSubscription, BookWireCache.Valid;
      if (|subscriptions| >= MAX_SUBSCRIPTIONS && sub !in subscriptions) || !ValidSubscription(sub, universe)
        || sub in subscriptions {
        LogOther(Error);
        return true;
      }
      JoinOk(Value(), sub, universe);
      subscriptions := subscriptions + {sub};
      if current.Some? {
        var p := current.value;
        var view := cache.Get(sub, mem, p.addr, p.time, p.height);
        if view.TooBig? {
          return false;
        }
        if view.Found? && recent {
          ok := AcceptWithFrame(sub, mem, p, written);
          return;
        }
      }
      LeaveOk(Value(), sub);
      subscriptions := subscriptions - {sub};
      LogOther(Error);
      ok := true;
    }

    method AcceptWithFrame(sub: Subscription, mem: Memory, p: Position, written: bool) returns (ok: bool)
      requires Valid() && sub in subscriptions && sub !in sentPositions && cache.Valid(mem) && p.addr in mem
      requires sub.L2Book?
      requires Encoded(cache.size, sub, mem[p.addr], p.time, p.height).Found?
      modifies this, cache
      ensures cache.Valid(mem) && Valid() && subscriptions == old(subscriptions)
      ensures log == old(log) + [Accepted(sub)] +
                (if ok then [BookFrame(sub, Encoded(cache.size, sub, mem[p.addr], p.time, p.height).frame)] else [])
      ensures written ==> ok
      ensures sentPositions == if ok then old(sentPositions)[sub := p.height] else old(sentPositions)
    {
      hide ConnOk, Encoded, Bytes, BookWireCache.Valid;
      LogOther(Accepted(sub));
      var r := SendFromSnapshot(sub, mem, p.addr, p.time, p.height, true, written);
      ok := r == Delivered;
    }

    /** Ending a subscription forgets its position; a request that is invalid by now changes nothing. */
    method Unsubscribe(sub: Subscription, universe: set<string>)
      requires Valid()
      modifies this
      ensures Valid() && Unsubscribed(old(Value()), Value(), sub, universe)
    {
      hide ConnOk, ValidSubscription;
      if !ValidSubscription(sub, universe) || sub !in subscriptions {
        LogOther(Error);
        return;
      }
      EndOk(Value(), sub);
      subscriptions := subscriptions - {sub};
      sentPositions := sentPositions - {sub};
      log := log + [Ended(sub)];
    }
  }

  const MAX_SUBSCRIPTIONS := 2048

  // ----- every action keeps the log rising and the positions right

  lemma FrameOk(c: Conn, sub: Subscription, f: Frame)
    requires ConnOk(c) && sub in c.subs && (sub in c.positions ==> c.positions[sub] < f.height)
    ensures ConnOk(c.(positions := c.positions[sub := f.height], log := c.log + [BookFrame(sub, f)]))
  {
    hide LastHeight, Rising;
    RisingAppend(c.log, BookFrame(sub, f));
    forall s
      ensures LastHeight(c.log + [BookFrame(sub, f)], s) == if s == sub then Some(f.height) else LastHeight(c.log, s)
    {
      LastHeightAppend(c.log, BookFrame(sub, f), s);
    }
  }

  lemma OtherOk(c: Conn, m: Sent)
    requires ConnOk(c) && !m.BookFrame? && !m.Ended?
    ensures ConnOk(c.(log := c.log + [m]))
  {
    hide LastHeight, Rising;
    RisingAppend(c.log, m);
    forall s ensures LastHeight(c.log + [m], s) == LastHeight(c.log, s) {
      LastHeightAppend(c.log, m, s);
    }
  }

  lemma EndOk(c: Conn, sub: Subscription)
    requires ConnOk(c)
    ensures ConnOk(Conn(c.subs - {sub}, c.positions - {sub}, c.log + [Ended(sub)]))
  {
    hide LastHeight, Rising;
    RisingAppend(c.log, Ended(sub));
    forall s ensures LastHeight(c.log + [Ended(sub)], s) == if s == sub then None else LastHeight(c.log, s) {
      LastHeightAppend(c.log, Ended(sub), s);
    }
  }

  lemma JoinOk(c: Conn, sub: Subscription, universe: set<string>)
    requires ConnOk(c) && sub !in c.subs && sub.L2Book? && ValidSubscription(sub, universe)
    ensures ConnOk(c.(subs := c.subs + {sub})) && sub !in c.positions
  {
    hide Rising, LastHeight;
    ValidIsOffered(sub, universe);
  }

  lemma LeaveOk(c: Conn, sub: Subscription)
    requires ConnOk(c) && sub !in c.positions
    ensures ConnOk(c.(subs := c.subs - {sub}))
  {
    hide Rising, LastHeight;
  }

  lemma UnsubscribedOk(c: Conn, c': Conn, sub: Subscription, universe: set<string>)
    requires ConnOk(c) && Unsubscribed(c, c', sub, universe)
    ensures ConnOk(c')
  {
    hide ConnOk, ValidSubscription;
    EndOk(c, sub);
    OtherOk(c, Error);
  }

  lemma AnsweredOk(size: Size, c: Conn, c': Conn, sub: Subscription, universe: set<string>, x: Option<Shown>, ok: bool)
    requires ConnOk(c) && sub.L2Book? && Answered(size, c, c', sub, universe, x, ok)
    ensures ConnOk(c')
  {
    hide ConnOk, ValidSubscription, Encoded;
    OtherOk(c, Error);
    if sub in c'.subs && sub !in c.subs {
      JoinOk(c, sub, universe);
      var joined := c.(subs := c.subs + {sub});
      OtherOk(joined, Accepted(sub));
      if ok {
        EncodedPosition(size, sub, x.value.views, x.value.time, x.value.height);
        var f := Encoded(size, sub, x.value.views, x.value.time, x.value.height).frame;
        FrameOk(joined.(log := c.log + [Accepted(sub)]), sub, f);
        assert c.log + [Accepted(sub)] + [BookFrame(sub, f)] == c.log + [Accepted(sub), BookFrame(sub, f)];
      }
    }
  }

  // ----- a broadcast, subscription by subscription

  lemma NothingPushed(size: Size, c: Conn, x: Shown)
    ensures Pushed(size, c, c, x) && Receivers(c.log, |c.log|, |c.log|) == {}
    ensures Recorded(c.positions, {}, x.height) == c.positions
  {
    assert c.positions == Recorded(c.positions, {}, x.height);
  }

  /** A subscription that has not received the broadcast keeps its position. */
  lemma PositionKept(size: Size, c: Conn, c': Conn, x: Shown, sub: Subscription)
    requires Pushed(size, c, c', x) && sub !in Receivers(c'.log, |c.log|, |c'.log|)
    ensures sub in c'.positions <==> sub in c.positions
    ensures sub in c.positions ==> c'.positions[sub] == c.positions[sub]
  {
    hide RightFrame;
  }

  lemma RecordedMore(positions: map<Subscription, nat>, subs: set<Subscription>, sub: Subscription, height: nat)
    ensures Recorded(positions, subs + {sub}, height) == Recorded(positions, subs, height)[sub := height]
    ensures sub !in subs ==>
              && (sub in Recorded(positions, subs, height) <==> sub in positions)
              && (sub in positions ==> Recorded(positions, subs, height)[sub] == positions[sub])
  {
  }

  lemma ReceiversMore(log: seq<Sent>, i: nat, j: nat)
    requires i <= j < |log| && log[j].BookFrame?
    ensures Receivers(log, i, j + 1) == Receivers(log, i, j) + {log[j].sub}
  {
  }

  lemma ReceiversSame(log: seq<Sent>, log': seq<Sent>, i: nat, j: nat)
    requires i <= j <= |log| && log <= log'
    ensures Receivers(log', i, j) == Receivers(log, i, j)
  {
    assert forall k :: 0 <= k < |log| ==> log'[k] == log[k];
  }

  lemma Received(log: seq<Sent>, i: nat, j: nat, k: nat)
    requires i <= k < j <= |log| && log[k].BookFrame?
    ensures log[k].sub in Receivers(log, i, j)
  {
  }

  lemma PushedOne(size: Size, c: Conn, m: Conn, c': Conn, x: Shown, sub: Subscription)
    requires Pushed(size, c, m, x) && sub !in Receivers(m.log, |c.log|, |m.log|)
    requires sub in c.subs && Due(c.positions, size, sub, x.views, x.time, x.height)
    requires var f := Encoded(size, sub, x.views, x.time, x.height).frame;
             c' == Conn(m.subs, m.positions[sub := x.height], m.log + [BookFrame(sub, f)])
    ensures Pushed(size, c, c', x)
    ensures Receivers(c'.log, |c.log|, |c'.log|) == Receivers(m.log, |c.log|, |m.log|) + {sub}
  {
    hide Encoded, Receivers, Recorded, Due;
    DueFound(c.positions, size, sub, x);
    var f := Encoded(size, sub, x.views, x.time, x.height).frame;
    assert c'.log[|m.log|] == BookFrame(sub, f);
    ReceiversSame(m.log, c'.log, |c.log|, |m.log|);
    ReceiversMore(c'.log, |c.log|, |m.log|);
    RecordedMore(c.positions, Receivers(m.log, |c.log|, |m.log|), sub, x.height);
    forall j | |c.log| <= j < |m.log| ensures m.log[j].sub != sub && c'.log[j] == m.log[j] {
      assert RightFrame(size, c, m.log[j], x);
      Received(m.log, |c.log|, |m.log|, j);
    }
  }

  lemma DueFound(positions: map<Subscription, nat>, size: Size, sub: Subscription, x: Shown)
    requires Due(positions, size, sub, x.views, x.time, x.height)
    ensures Encoded(size, sub, x.views, x.time, x.height).Found?
  {
    hide Encoded;
  }

  lemma FrameReceived(size: Size, c: Conn, m: Sent, x: Shown)
    requires RightFrame(size, c, m, x)
    ensures m.BookFrame? && m.frame.height == x.height && m.sub in c.subs
    ensures (m.sub in c.positions ==> c.positions[m.sub] < x.height)
  {
    EncodedPosition(size, m.sub, x.views, x.time, x.height);
    hide Encoded;
  }

  /** The log up to its j-th entry, in the middle of a broadcast. */
  lemma {:induction false} PushedUpTo(size: Size, c: Conn, c': Conn, x: Shown, j: nat)
    requires ConnOk(c) && Pushed(size, c, c', x) && |c.log| <= j <= |c'.log|
    ensures ConnOk(Conn(c.subs, Recorded(c.positions, Receivers(c'.log, |c.log|, j), x.height), c'.log[..j]))
    decreases j
  {
    hide ConnOk, RightFrame, Receivers, Recorded;
    if j == |c.log| {
      NothingPushed(size, c, x);
      ReceiversSame(c.log, c'.log, j, j);
      assert c'.log[..j] == c.log;
    } else {
      var m := c'.log[j - 1];
      PushedUpTo(size, c, c', x, j - 1);
      assert RightFrame(size, c, m, x);
      FrameReceived(size, c, m, x);
      var was := Receivers(c'.log, |c.log|, j - 1);
      ReceiversMore(c'.log, |c.log|, j - 1);
      NotYetReceived(size, c, c', x, j - 1);
      RecordedMore(c.positions, was, m.sub, x.height);
      FrameOk(Conn(c.subs, Recorded(c.positions, was, x.height), c'.log[..j - 1]), m.sub, m.frame);
      assert c'.log[..j] == c'.log[..j - 1] + [m];
    }
  }

  lemma NotYetReceived(size: Size, c: Conn, c': Conn, x: Shown, j: nat)
    requires Pushed(size, c, c', x) && |c.log| <= j < |c'.log|
    ensures c'.log[j].sub !in Receivers(c'.log, |c.log|, j)
  {
    hide RightFrame, Recorded;
  }

  /** A broadcast keeps the log rising, since it reaches each subscription at most once and only with news. */
  lemma PushedOk(size: Size, c: Conn, c': Conn, x: Shown)
    requires ConnOk(c) && Pushed(size, c, c', x)
    ensures ConnOk(c')
  {
    hide ConnOk, RightFrame, Receivers, Recorded;
    PushedUpTo(size, c, c', x, |c'.log|);
    assert c'.log[..|c'.log|] == c'.log;
  }

  lemma EncodedPosition(size: Size, sub: Subscription, views: ViewMap, time: nat, height: nat)
    ensures var r := Encoded(size, sub, views, time, height); r.Found? ==>
              r.frame.height == height && r.frame.time == time
  {
    hide Levels;
  }

  // ----- what a frame shows

  function LevelCount(sub: Subscription): nat
    requires sub.L2Book?
  {
    if sub.levels.Some? then sub.levels.value else DEFAULT_LEVELS
  }

  lemma EmptyViews(p: Precision)
    requires Offered(p)
    ensures Cascaded(EMPTY, p) == NO_LEVELS
    decreases Rank(p)
  {
    assert Units([]) == [];
    if p != RAW {
      EmptyViews(Source(p));
    }
  }

  /**
   A delivered frame shows exactly the first n levels of the subscribed precision's view of the
   node's book at the frame's height.
   */
  lemma FrameShowsNode(n: Node, loads: set<nat>, m: L.Msg, sub: Subscription, size: Size, ignoreSpot: bool)
    requires m.L2? && T.TrueMsg(n, loads, m, ignoreSpot) && sub.L2Book?
    requires Offered(Precision(sub.figs, sub.mantissa)) && !Ignored(sub.coin, ignoreSpot)
    ensures var r := Encoded(size, sub, m.views, m.time, m.height);
            r.Found? ==> r.frame == FrameOf(At(n, m.height, ignoreSpot).books, m.time, m.height, sub)
  {
    hide At, Cascaded;
    var p := Precision(sub.figs, sub.mantissa);
    EmptyViews(p);
    assert p in ViewsOf(BookOf(At(n, m.height, ignoreSpot).books, sub.coin));
  }

  /** What a frame of these books must be: the first n levels of the subscribed precision's view of the coin's book. */
  function FrameOf(books: Books, time: nat, height: nat, sub: Subscription): Frame
    requires sub.L2Book? && Offered(Precision(sub.figs, sub.mantissa))
  {
    Frame(sub.coin, Truncate(Cascaded(BookOf(books, sub.coin), Precision(sub.figs, sub.mantissa)), LevelCount(sub)),
          time, height)
  }

  /** Of each side the best levels, as many as asked for, or twenty; all of them when there are no more. */
  lemma FrameContents(books: Books, time: nat, height: nat, sub: Subscription)
    requires sub.L2Book? && Offered(Precision(sub.figs, sub.mantissa))
    ensures var f := FrameOf(books, time, height, sub);
            var v := Cascaded(BookOf(books, sub.coin), Precision(sub.figs, sub.mantissa));
            var n := if sub.levels.None? then 20 else sub.levels.value;
            && f.coin == sub.coin && f.time == time && f.height == height
            && f.levels.bids == (if n < |v.bids| then v.bids[..n] else v.bids)
            && f.levels.asks == (if n < |v.asks| then v.asks[..n] else v.asks)
  {
    hide Cascaded;
  }

  /**
   A frame of a full rebuild of the views shows the books, cached or freshly encoded. There is one
   for every coin with a book and every outcome coin, unless it is too large.
   */
  lemma FrameShowsBooks(books: Books, time: nat, height: nat, sub: Subscription, size: Size)
    requires sub.L2Book? && Offered(Precision(sub.figs, sub.mantissa))
    ensures var r, f := Encoded(size, sub, AllViews(books), time, height), FrameOf(books, time, height, sub);
            && (r.Found? <==> (sub.coin in books || IsHip4(sub.coin)) && size(f) <= MAX_WIRE_BYTES)
            && (r.NoView? <==> sub.coin !in books && !IsHip4(sub.coin))
    ensures var r := Encoded(size, sub, AllViews(books), time, height); r.Found? ==>
              r.frame == FrameOf(books, time, height, sub)
  {
    hide Cascaded;
    var p := Precision(sub.figs, sub.mantissa);
    EmptyViews(p);
    assert p in ViewsOf(BookOf(books, sub.coin));
  }

  /** The immediate snapshot of a subscription shows the live book. */
  lemma FrameShowsLive(s: State, sub: Subscription, size: Size)
    requires CacheAgrees(s) && sub.L2Book? && Offered(Precision(sub.figs, sub.mantissa))
    ensures var r := Encoded(size, sub, Refreshed(s).cache, s.core.time, s.core.height);
            r.Found? ==> r.frame == FrameOf(s.core.books, s.core.time, s.core.height, sub)
  {
    hide Cascaded, Refreshed, CacheAgrees, AllViews, Encoded, FrameOf;
    RefreshIsRebuild(s);
    FrameShowsBooks(s.core.books, s.core.time, s.core.height, sub, size);
  }
}
