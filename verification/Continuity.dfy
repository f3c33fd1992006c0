/**
 Subscribers across rebuilding audits. As long as the blocks that are applied keep the node's
 promises, the L4 updates between gaps lead from the old live books to the new ones up to empty
 books, whatever audits complete in between. Nothing is assumed of the snapshots.
 */
module Continuity {
  import opened Prelude
  import opened FlatBook
  import opened Snapshots
  import opened Blocks
  import opened Replays
  import opened Queues
  import opened BookState
  import opened Listeners
  import opened Audit
  import opened Protocol
  import opened AuditEffects
  import opened Publication

  /** The block that receiving this record would apply, if any, is legal. */
  ghost predicate LegalRecord(cfg: Config, l: Listener, r: Record)
    requires QueuesAccounted(l)
  {
    var e := Enqueue(cfg, l, r);
    EnqueueAccounted(cfg, l, r);
    e.ok && e.l.live.Some? ==>
      var p := PopPair(e.l.statuses, e.l.diffs);
      p.pair.Some? ==> LegalNext(e.l.live.value.core, Block(p.pair.value.0, p.pair.value.1), cfg.ignoreSpot)
  }

  ghost predicate LegalNext(c: Core, b: Block, ignoreSpot: bool) {
    b.statuses.height == c.height + 1 ==> LegalBlock(c, b, ignoreSpot)
  }

  ghost predicate LegalRecords(cfg: Config, l: Listener, rs: seq<Record>)
    requires QueuesAccounted(l)
    decreases |rs|
  {
    rs != [] ==>
      && LegalRecord(cfg, l, rs[0])
      && (ReceiveAccounted(cfg, l, rs[0]); LegalRecords(cfg, Receive(cfg, l, rs[0]).l, rs[1..]))
  }

  /** Every chunk of records in the run applies legal blocks. */
  ghost predicate LegalRun(cfg: Config, s: Sys, es: seq<Event>)
    requires Inv(cfg, s)
    decreases |es|
  {
    es != [] && Enabled(s, es[0]) ==>
      && (es[0].TurnEv? ==> (TaskEpoch(cfg, s); LegalRecords(cfg, s.l, es[0].records)))
      && (StepKeeps(cfg, s, es[0]); LegalRun(cfg, Next(cfg, s, es[0]), es[1..]))
  }

  /**
   The live books are exact with positive sizes, and so is the audit's clone, from which legal
   blocks are remembered.
   */
  ghost predicate GoodSys(cfg: Config, s: Sys) {
    && (s.l.live.Some? ==> Good(s.l.live.value.core.books, cfg.ignoreSpot))
    && (s.task.Running? && s.task.epoch == s.l.epoch && s.task.clone.Some? && s.l.cache.Some? ==>
          && Good(s.task.clone.value.core.books, cfg.ignoreSpot)
          && LegalReplay(s.task.clone.value.core, s.l.cache.value, cfg.ignoreSpot))
  }

  /** The new blocks name one coin per order, and without a gap they lead to books interchangeable with the new ones. */
  ghost predicate LeadsTo(l: Listener, l': Listener, ignoreSpot: bool) {
    && l.out <= l'.out
    && (l.live.Some? && NoGap(News(l, l')) ==>
          && l'.live.Some? && AllAgree(L4s(News(l, l')), ignoreSpot)
          && var r := Replay(l.live.value.core, L4s(News(l, l')), ignoreSpot);
             r.Some? && SameCore(r.value, l'.live.value.core, ignoreSpot))
  }

  lemma AllAgreeConcat(a: seq<Block>, b: seq<Block>, ignoreSpot: bool)
    requires AllAgree(a, ignoreSpot) && AllAgree(b, ignoreSpot)
    ensures AllAgree(a + b, ignoreSpot)
  {
    hide CoinsAgree;
  }

  lemma SameTrans(x: Core, y: Core, z: Core, ignoreSpot: bool)
    requires SameCore(x, y, ignoreSpot) && SameCore(y, z, ignoreSpot)
    ensures SameCore(x, z, ignoreSpot)
  {
    hide Ignored;
  }

  lemma LeadsToTrans(a: Listener, b: Listener, c: Listener, ignoreSpot: bool)
    requires LeadsTo(a, b, ignoreSpot) && LeadsTo(b, c, ignoreSpot)
    ensures LeadsTo(a, c, ignoreSpot)
  {
    NewsSplit(a, b, c);
    hide NoGap, L4s, Replay, News, AllAgree, SameCore;
    if a.live.Some? && NoGap(News(a, c)) {
      var x, y := L4s(News(a, b)), L4s(News(b, c));
      AllAgreeConcat(x, y, ignoreSpot);
      ReplayConcat(a.live.value.core, x, y, ignoreSpot);
      var m := Replay(a.live.value.core, x, ignoreSpot).value;
      ReplayCongruent(m, b.live.value.core, y, ignoreSpot);
      SameTrans(Replay(m, y, ignoreSpot).value, Replay(b.live.value.core, y, ignoreSpot).value, c.live.value.core,
                ignoreSpot);
    }
  }

  lemma ExactlyLeads(l: Listener, l': Listener, ignoreSpot: bool)
    requires Continues(l, l', ignoreSpot)
    requires l.live.Some? && NoGap(News(l, l')) ==> AllAgree(L4s(News(l, l')), ignoreSpot)
    ensures LeadsTo(l, l', ignoreSpot)
  {
    hide NoGap, L4s, Replay, News, AllAgree;
    if l'.live.Some? {
      SameSelf(l'.live.value.core, ignoreSpot);
    }
  }

  // ----- records

  /** The new blocks name one coin per order. */
  ghost predicate NewsAgree(l: Listener, l': Listener, ignoreSpot: bool) {
    l.out <= l'.out && AllAgree(L4s(News(l, l')), ignoreSpot)
  }

  lemma NewsAgreeTrans(a: Listener, b: Listener, c: Listener, ignoreSpot: bool)
    requires NewsAgree(a, b, ignoreSpot) && NewsAgree(b, c, ignoreSpot)
    ensures NewsAgree(a, c, ignoreSpot)
  {
    NewsSplit(a, b, c);
    hide L4s, News, AllAgree;
    AllAgreeConcat(L4s(News(a, b)), L4s(News(b, c)), ignoreSpot);
  }

  lemma QuietAgree(l: Listener, l': Listener, ignoreSpot: bool)
    requires l'.out == l.out || (|l'.out| > 0 && l'.out == l.out + [l'.out[|l'.out| - 1]] && !l'.out[|l'.out| - 1].L4?)
    ensures NewsAgree(l, l', ignoreSpot)
  {
    if l'.out != l.out {
      var m := l'.out[|l'.out| - 1];
      assert News(l, l') == [m];
      L4sOne(m);
    } else {
      assert News(l, l') == [];
    }
  }

  lemma AdvancedGood(cfg: Config, s: Sys, b: Block)
    requires AuditInv(cfg, s) && GoodSys(cfg, s) && s.l.live.Some? && LegalNext(s.l.live.value.core, b, cfg.ignoreSpot)
    ensures var r := Advanced(cfg, s.l, b);
            r.ok ==> GoodSys(cfg, s.(l := r.l)) && NewsAgree(s.l, r.l, cfg.ignoreSpot)
  {
    hide Replay, ApplyBlock, LegalReplay, Good, LegalDiffs, CoinsAgree;
    var r := Advanced(cfg, s.l, b);
    var c := s.l.live.value.core;
    if r.ok {
      if b.statuses.height > c.height {
        AcceptedIsNext(c, b, cfg.ignoreSpot);
        BlockGood(c, b, cfg.ignoreSpot);
        assert News(s.l, r.l) == [L4(b)];
        L4sOne(L4(b));
        if s.task.Running? && s.task.epoch == r.l.epoch && s.l.cache.Some? {
          LegalReplayConcat(s.task.clone.value.core, s.l.cache.value, [b], cfg.ignoreSpot);
          LegalOne(c, b, cfg.ignoreSpot);
        }
      } else {
        QuietAgree(s.l, r.l, cfg.ignoreSpot);
      }
    }
  }

  lemma LegalOne(c: Core, b: Block, ignoreSpot: bool)
    requires LegalBlock(c, b, ignoreSpot)
    ensures LegalReplay(c, [b], ignoreSpot)
  {
    hide ApplyBlock, LegalBlock;
    assert [b][1..] == [];
  }

  lemma EnqueueGood(cfg: Config, s: Sys, r: Record)
    requires GoodSys(cfg, s)
    ensures var l := Enqueue(cfg, s.l, r).l; GoodSys(cfg, s.(l := l)) && NewsAgree(s.l, l, cfg.ignoreSpot)
  {
    hide Push, Good, LegalReplay, NewsAgree;
    QuietAgree(s.l, Enqueue(cfg, s.l, r).l, cfg.ignoreSpot);
  }

  lemma ReceiveGood(cfg: Config, s: Sys, r: Record)
    requires Inv(cfg, s) && GoodSys(cfg, s) && QueuesAccounted(s.l) && LegalRecord(cfg, s.l, r)
    ensures var q := Receive(cfg, s.l, r);
            q.ok ==> GoodSys(cfg, s.(l := q.l)) && NewsAgree(s.l, q.l, cfg.ignoreSpot)
  {
    hide QueueOk, CacheOk, Published, AuditInv, PopPair, Enqueue, Advanced, NewsAgree, LegalNext, Good, LegalReplay;
    EnqueueGood(cfg, s, r);
    EnqueueRest(cfg, s, r);
    EnqueueAccounted(cfg, s.l, r);
    var e := Enqueue(cfg, s.l, r);
    if e.ok && e.l.live.Some? {
      var p := PopPair(e.l.statuses, e.l.diffs);
      var l2 := e.l.(statuses := p.left, diffs := p.right);
      RestIgnoresQueues(cfg, s.(l := e.l), l2);
      QuietAgree(e.l, l2, cfg.ignoreSpot);
      NewsAgreeTrans(s.l, e.l, l2, cfg.ignoreSpot);
      if p.pair.Some? {
        var b := Block(p.pair.value.0, p.pair.value.1);
        AdvancedGood(cfg, s.(l := l2), b);
        var q := Advanced(cfg, l2, b);
        if q.ok {
          NewsAgreeTrans(s.l, l2, q.l, cfg.ignoreSpot);
        }
      }
    }
  }

  lemma {:induction false} ReceiveAllGood(cfg: Config, s: Sys, rs: seq<Record>)
    requires Inv(cfg, s) && GoodSys(cfg, s) && QueuesAccounted(s.l) && LegalRecords(cfg, s.l, rs)
    ensures var q := ReceiveAll(cfg, s.l, rs);
            q.ok ==> GoodSys(cfg, s.(l := q.l)) && NewsAgree(s.l, q.l, cfg.ignoreSpot)
    decreases |rs|
  {
    hide Inv, Receive, Accounted, GoodSys, NewsAgree, LegalRecord;
    if rs == [] {
      QuietAgree(s.l, s.l, cfg.ignoreSpot);
    } else {
      ReceiveKeeps(cfg, s, rs[0]);
      ReceiveGood(cfg, s, rs[0]);
      ReceiveAccounted(cfg, s.l, rs[0]);
      var q := Receive(cfg, s.l, rs[0]);
      if q.ok {
        ReceiveAllGood(cfg, s.(l := q.l), rs[1..]);
        var q' := ReceiveAll(cfg, q.l, rs[1..]);
        if q'.ok {
          NewsAgreeTrans(s.l, q.l, q'.l, cfg.ignoreSpot);
        }
      }
    }
  }

  lemma TurnGood(cfg: Config, s: Sys, rs: seq<Record>)
    requires Inv(cfg, s) && GoodSys(cfg, s) && QueuesAccounted(s.l) && LegalRecords(cfg, s.l, rs)
    ensures var l := Turn(cfg, s.l, rs); LeadsTo(s.l, l, cfg.ignoreSpot) && GoodSys(cfg, s.(l := l))
  {
    hide Inv, ReceiveAll, Accounted, Refreshed, LegalRecords, Good, LegalReplay, Continues, AllAgree, NoGap, L4s;
    ReceiveAllGood(cfg, s, rs);
    TurnContinues(cfg, s.l, rs);
    var q, l := ReceiveAll(cfg, s.l, rs), Turn(cfg, s.l, rs);
    if q.ok {
      if q.l.live.Some? {
        SnappedCore(q.l.live.value);
      }
      QuietAgree(q.l, l, cfg.ignoreSpot);
      NewsAgreeTrans(s.l, q.l, l, cfg.ignoreSpot);
    } else {
      PrefixOf(s.l, l, cfg.ignoreSpot);
      TurnFenced(cfg, s.l, rs);
    }
    ExactlyLeads(s.l, l, cfg.ignoreSpot);
  }

  /** A fenced turn publishes a gap. */
  lemma TurnFenced(cfg: Config, l: Listener, rs: seq<Record>)
    requires QueuesAccounted(l) && !ReceiveAll(cfg, l, rs).ok
    ensures l.out <= Turn(cfg, l, rs).out && !NoGap(News(l, Turn(cfg, l, rs)))
  {
    ReceiveAllContinues(cfg, l, rs);
    hide ReceiveAll, Accounted, Continues;
    var q, l' := ReceiveAll(cfg, l, rs), Turn(cfg, l, rs);
    var news := News(l, l');
    assert news[|news| - 1] == Gap;
  }

  // ----- audits

  lemma GoodAcross(x: Books, y: Books, ignoreSpot: bool)
    requires SameBooks(x, y, ignoreSpot) && Good(y, ignoreSpot)
    ensures Good(x, ignoreSpot)
  {
    hide WellFormed, AllPositive, Ignored;
    forall c | c in x && !Ignored(c, ignoreSpot) ensures WellFormed(x[c]) && AllPositive(x[c]) {
      GoodBookOf(y, c, ignoreSpot);
      SameBookOf(x, y, c, ignoreSpot);
    }
  }

  /** Legal blocks keep the audit's baseline good. */
  lemma BaselineGood(cfg: Config, s: Sys, height: nat)
    requires AuditOfLive(cfg, s) && GoodSys(cfg, s)
    ensures var c := Baseline(cfg, s, height);
            c.Reached? ==> Good(c.state.core.books, cfg.ignoreSpot) && AllAgree(c.rest, cfg.ignoreSpot)
  {
    hide Replay, CatchUp, SplitAt, Good, LegalReplay, AllAgree;
    var live, clone, blocks := s.l.live.value.core, s.task.clone.value, s.l.cache.value;
    CatchUpSplits(clone, height, blocks, cfg.ignoreSpot, live);
    var c := CatchUp(clone, height, blocks, cfg.ignoreSpot);
    if c.Reached? {
      SplitGood(clone.core, c.state.core, blocks, c.rest, cfg.ignoreSpot, live);
    }
  }

  lemma SplitGood(c: Core, c': Core, blocks: seq<Block>, rest: seq<Block>, ignoreSpot: bool, live: Core)
    requires Good(c.books, ignoreSpot) && LegalReplay(c, blocks, ignoreSpot)
    requires SplitAt(c, c', blocks, rest, ignoreSpot, live)
    ensures Good(c'.books, ignoreSpot) && AllAgree(rest, ignoreSpot)
  {
    hide Good, LegalReplay, Replay, CoinsAgree;
    var k := |blocks| - |rest|;
    assert blocks == blocks[..k] + rest;
    LegalReplayConcat(c, blocks[..k], rest, ignoreSpot);
    ReplayGood(c, blocks[..k], ignoreSpot);
    LegalReplayAgrees(c', rest, ignoreSpot);
  }

  /** An audit of a live book either announces a gap or leaves the books as they were. */
  lemma AuditLeads(cfg: Config, s: Sys, snaps: map<string, Snapshot>, height: nat)
    requires AuditOfLive(cfg, s) && GoodSys(cfg, s)
    ensures var r := Finish(cfg, s.l, s.task.epoch, s.task.clone, snaps, height);
            && LeadsTo(s.l, r.l, cfg.ignoreSpot)
            && (s.l.out <= r.l.out && NoGap(News(s.l, r.l)) ==>
                 r.l.live.Some? && Good(r.l.live.value.core.books, cfg.ignoreSpot))
  {
    hide Finish, Good, LegalReplay, AllAgree, Replay, CatchUp, SameBooks;
    var r := Finish(cfg, s.l, s.task.epoch, s.task.clone, snaps, height);
    var live := s.l.live.value.core;
    if AuditVerdict(cfg, s, snaps, height) == Some(Diverged) {
      DivergedContinues(cfg, s, snaps, height);
      DivergedNews(cfg, s, snaps, height);
      ExactlyLeads(s.l, r.l, cfg.ignoreSpot);
    } else {
      BaselineGood(cfg, s, height);
      BenignAuditInvisible(cfg, s, snaps, height);
      GoodAcross(r.l.live.value.core.books, live.books, cfg.ignoreSpot);
      BenignLeads(s.l, r.l, cfg.ignoreSpot);
    }
  }

  lemma DivergedNews(cfg: Config, s: Sys, snaps: map<string, Snapshot>, height: nat)
    requires AuditOfLive(cfg, s) && AuditVerdict(cfg, s, snaps, height) == Some(Diverged)
    ensures var r := Finish(cfg, s.l, s.task.epoch, s.task.clone, snaps, height);
            && s.l.out <= r.l.out
            && (NoGap(News(s.l, r.l)) ==> r.l.live == s.l.live && AllAgree(L4s(News(s.l, r.l)), cfg.ignoreSpot))
  {
    var r := Finish(cfg, s.l, s.task.epoch, s.task.clone, snaps, height);
    CommitsAtLiveHeight(cfg, s, snaps, height);
    hide Replay, CatchUp, UpdatedAll, Validate, FromNode, Commit, AuditInv;
    if r.ok {
      assert News(s.l, r.l)[0] == Gap;
    } else {
      assert r.l == TakeCache(s.l);
      assert News(s.l, r.l) == [];
    }
  }

  lemma BenignLeads(l: Listener, l': Listener, ignoreSpot: bool)
    requires l.live.Some? && l'.live.Some? && SameCore(l'.live.value.core, l.live.value.core, ignoreSpot)
    requires l'.out == l.out || exists v, t, h :: l'.out == l.out + [L2(v, t, h)]
    ensures LeadsTo(l, l', ignoreSpot)
  {
    if l'.out == l.out {
      assert News(l, l') == [];
    } else {
      var v, t, h :| l'.out == l.out + [L2(v, t, h)];
      assert News(l, l') == [L2(v, t, h)];
      L4sOne(L2(v, t, h));
    }
    SameFlipped(l'.live.value.core, l.live.value.core, ignoreSpot);
    hide ApplyBlock;
  }

  lemma SameFlipped(x: Core, y: Core, ignoreSpot: bool)
    requires SameCore(x, y, ignoreSpot)
    ensures SameCore(y, x, ignoreSpot)
  {
    hide Ignored;
  }

  // ----- every step, every run

  lemma StepLeads(cfg: Config, s: Sys, e: Event)
    requires Inv(cfg, s) && GoodSys(cfg, s) && Enabled(s, e) && QueuesAccounted(s.l) && s.l.live.Some?
    requires e.TurnEv? ==> LegalRecords(cfg, s.l, e.records)
    ensures var s' := Next(cfg, s, e);
            && LeadsTo(s.l, s'.l, cfg.ignoreSpot)
            && (s.l.out <= s'.l.out && NoGap(News(s.l, s'.l)) ==> s'.l.live.Some? && GoodSys(cfg, s'))
  {
    hide LegalRecords, Turn, Accounted, LeadsTo, Finish, Replay, QueueOk, CacheOk, Published, Good;
    if e.TurnEv? {
      TurnGood(cfg, s, e.records);
      LeadsToLive(s.l, Turn(cfg, s.l, e.records), cfg.ignoreSpot);
    } else if e.FinishEv? {
      if s.task.epoch == s.l.epoch {
        AuditLeads(cfg, s, e.snaps, e.height);
      } else {
        StaleFinish(cfg, s.l, s.task.epoch, s.task.clone, e.snaps, e.height);
        QuietContinues(s.l, s.l, cfg.ignoreSpot);
        QuietAgree(s.l, s.l, cfg.ignoreSpot);
        ExactlyLeads(s.l, s.l, cfg.ignoreSpot);
      }
    } else {
      QuietStepLeads(cfg, s, e);
    }
  }

  lemma LeadsToLive(l: Listener, l': Listener, ignoreSpot: bool)
    requires LeadsTo(l, l', ignoreSpot) && l.live.Some?
    ensures l.out <= l'.out && (NoGap(News(l, l')) ==> l'.live.Some?)
  {
    hide Replay, AllAgree, SameCore;
  }

  lemma QuietStepLeads(cfg: Config, s: Sys, e: Event)
    requires Inv(cfg, s) && GoodSys(cfg, s) && Enabled(s, e) && QueuesAccounted(s.l) && s.l.live.Some?
    requires !e.TurnEv? && !e.FinishEv?
    ensures var s' := Next(cfg, s, e);
            && LeadsTo(s.l, s'.l, cfg.ignoreSpot)
            && (s.l.out <= s'.l.out && NoGap(News(s.l, s'.l)) ==> s'.l.live.Some? && GoodSys(cfg, s'))
  {
    hide Accounted, Continues, Replay, QueueOk, CacheOk, Published, Good, Refreshed, AllAgree, L4s, LeadsTo;
    var s' := Next(cfg, s, e);
    StepContinues(cfg, s, e);
    SnappedCore(s.l.live.value);
    NothingLegal(cfg, s.l.live.value.core);
    QuietAgree(s.l, s'.l, cfg.ignoreSpot);
    ExactlyLeads(s.l, s'.l, cfg.ignoreSpot);
    if e.FenceEv? || e.CrashEv? || (e.JoinEv? && !s.task.ok) {
      assert News(s.l, s'.l)[0] == Gap;
    }
  }

  lemma NothingLegal(cfg: Config, c: Core)
    ensures LegalReplay(c, [], cfg.ignoreSpot)
  {
  }

  /**
   From any state with good books, over every run whose blocks are legal, whatever audits complete:
   without a gap, replaying the L4 updates on the old live books gives books interchangeable with
   the new live ones, at the same height and time.
   */
  lemma {:induction false} RunLeads(cfg: Config, s: Sys, es: seq<Event>)
    requires Inv(cfg, s) && GoodSys(cfg, s) && s.l.live.Some? && LegalRun(cfg, s, es)
    ensures var r := RunEvents(cfg, s, es); r.Some? && s.l.out <= r.value.l.out ==>
              LeadsTo(s.l, r.value.l, cfg.ignoreSpot)
    decreases |es|
  {
    hide Inv, Next, LeadsTo, GoodSys, LegalRecords, Accounted, NoGap, News;
    if es == [] {
      QuietContinues(s.l, s.l, cfg.ignoreSpot);
      QuietAgree(s.l, s.l, cfg.ignoreSpot);
      ExactlyLeads(s.l, s.l, cfg.ignoreSpot);
    } else if Enabled(s, es[0]) {
      TaskEpoch(cfg, s);
      StepKeeps(cfg, s, es[0]);
      var s' := Next(cfg, s, es[0]);
      StepLeads(cfg, s, es[0]);
      LeadsPrefix(s.l, s'.l, cfg.ignoreSpot);
      RunConsecutive(cfg, s', es[1..]);
      var r := RunEvents(cfg, s', es[1..]);
      if r.Some? {
        ConsecutivePrefix(s'.l, r.value.l);
        NewsSplit(s.l, s'.l, r.value.l);
        if NoGap(News(s.l, s'.l)) {
          RunLeads(cfg, s', es[1..]);
          LeadsToTrans(s.l, s'.l, r.value.l, cfg.ignoreSpot);
        } else {
          GapLeads(s.l, r.value.l, cfg.ignoreSpot);
        }
      }
    }
  }

  lemma LeadsPrefix(l: Listener, l': Listener, ignoreSpot: bool)
    requires LeadsTo(l, l', ignoreSpot)
    ensures l.out <= l'.out
  {
  }

  lemma ConsecutivePrefix(l: Listener, l': Listener)
    requires Consecutive(l, l')
    ensures l.out <= l'.out
  {
  }

  lemma GapLeads(l: Listener, l': Listener, ignoreSpot: bool)
    requires l.out <= l'.out && !NoGap(News(l, l'))
    ensures LeadsTo(l, l', ignoreSpot)
  {
  }
}
