/** One concrete input for each property that fails in general, and one node that keeps its promises. */
module Findings {
  import opened Prelude
  import opened Orders
  import opened FlatBook
  import opened Snapshots
  import opened Buckets
  import opened Views
  import opened Blocks
  import opened Replays
  import opened Queues
  import opened BookState
  import opened Listeners
  import opened Audit
  import opened Protocol
  import opened ThinReplays
  import opened AuditEffects
  import opened Continuity
  import opened NodeChain

  function Bid7(sz: nat): Order {
    Order("A", 1, Bid, 7, sz, 0, false, "0.0", "N/A", None, "")
  }

  // ----- coarse views

  /** A bid at the raw price 12: the four-figure view built from rounded views differs from direct aggregation. */
  lemma CoarseViewExample()
    ensures var b := Book([Bid7(5).(px := 12)], [], map[1 := (Bid, 12)]);
            SidesSorted(b) && Cascaded(b, FOUR) != Direct(b, FOUR)
  {
    var b := Book([Bid7(5).(px := 12)], [], map[1 := (Bid, 12)]);
    assert NumDigits(12) == 2;
    assert !Passes(b.bids[0].px, FOUR);
    hide Cascaded, Direct;
    CoarseViewsDirectIff(b, FOUR);
  }

  // ----- duplicate oids

  /** Order 1 rests at 7; opening it again at 6 makes the index lose the first, which a cancel then cannot reach. */
  lemma DuplicateOidExample()
    ensures var b := Book([Bid7(5)], [], map[1 := (Bid, 7)]);
            var o := Bid7(5).(px := 6);
            var b' := AddBefore(b, o, None).book;
            && WellFormed(b) && !WellFormed(b')
            && b'.bids == [Bid7(5), o] && b'.index == map[1 := (Bid, 6)]
            && Cancel(b', 1) == Reply(Book([Bid7(5)], [], map[]), true)
  {
    var o := Bid7(5).(px := 6);
    ZeroedWellFormed(5);
    SecondPlaced(o);
    FindSecond(Bid7(5), o);
    hide AddBefore, Find;
    var b' := AddBefore(Book([Bid7(5)], [], map[1 := (Bid, 7)]), o, None).book;
    assert b'.bids[0].oid == 1 && b'.bids[0].px == 7;
    assert !SideIndexed(b'.bids, Bid, b'.index);
    assert Without(b'.bids, 1) == [Bid7(5)];
  }

  lemma SecondPlaced(o: Order)
    requires o == Bid7(5).(px := 6)
    ensures AddBefore(Book([Bid7(5)], [], map[1 := (Bid, 7)]), o, None) ==
              Reply(Book([Bid7(5), o], [], map[1 := (Bid, 6)]), true)
  {
    var s := [Bid7(5)];
    assert s[1..] == [] && BackOf(s[1..], Bid, 6) == 0;
    assert InsertAt(s, 1, o) == [Bid7(5), o];
    assert (map[1 := (Bid, 7)])[1 := (Bid, 6)] == map[1 := (Bid, 6)];
  }

  lemma FindSecond(x: Order, y: Order)
    requires x.px != y.px
    ensures Find([x, y], y.px, y.oid) == 1
  {
    assert [x, y][1..] == [y];
  }

  // ----- zero sizes and audits

  function Zeroed(sz: nat): Book {
    Book([Bid7(sz)], [], map[1 := (Bid, 7)])
  }

  lemma ZeroedWellFormed(sz: nat)
    ensures WellFormed(Zeroed(sz))
  {
    var b := Zeroed(sz);
    assert Find(b.bids, 7, 1) == 0;
  }

  /** Resizes order 1 to 5 in the block after the given height. */
  function ResizeBlock(height: nat, sz: nat): Block {
    Block(Batch(height + 1, 0, [], 0), Batch(height + 1, 0, [Diff(1, "A", 7, Update(sz))], 0))
  }

  lemma ResizeApplies(height: nat, from: nat, sz: nat)
    ensures ApplyBlock(Core(map["A" := Zeroed(from)], height, 0), ResizeBlock(height, sz), false) ==
            Advance(Core(map["A" := Zeroed(sz)], height + 1, 0), {"A"}, true)
  {
    var b := Zeroed(from);
    var d := Diff(1, "A", 7, Update(sz));
    assert Find(b.bids, 7, 1) == 0;
    assert b.bids[0 := b.bids[0].(sz := sz)] == Zeroed(sz).bids;
    assert ModifySz(b, 1, sz) == Reply(Zeroed(sz), true);
    var books, books' := map["A" := b], map["A" := Zeroed(sz)];
    assert books["A" := Zeroed(sz)] == books';
    assert ApplyDiff(books, map[], d) == Stage(books', map[], true);
    assert [d][1..] == [];
    assert ApplyDiffs(books', map[], [], false) == Applied(books', {}, true);
    assert ApplyDiffs(books, map[], [d], false) == Applied(books', {"A"} + {}, true);
  }

  /** The node has the same order of size zero, and a new empty book. */
  function ZeroSnaps(): map<string, Snapshot> {
    map["A" := Snapshot([Bid7(0)], []), "B" := Snapshot([], [])]
  }

  /**
   At the snapshot's height order 1 has size zero; the next block resizes it to 5. The live book
   ends up with positive sizes only, yet the benign audit fails: the rebuild has left the order out
   and the later resize does not find it.
   */
  lemma ZeroSizeAuditExample(height: nat)
    ensures var s := State(Core(map["A" := Zeroed(0)], height, 0), false, map[], {"A"});
            var rest := [ResizeBlock(height, 5)];
            && Validate(ToSnapshots(s.core.books), ZeroSnaps(), false) == EmptyBooksAdded
            && Replay(s.core, rest, false) == Some(Core(map["A" := Zeroed(5)], height + 1, 0))
            && Good(map["A" := Zeroed(5)], false)
            && !UpdatedAll(FromNode(ZeroSnaps(), height, 0), rest, false).ok
  {
    hide Replay, ApplyBlock, WellFormed, UpdatedAll, FromNode, AfterBlocks, FreshReplay, AllAgree, Consistent, HasExtra,
         Good, Exact,
         ToSnapshots, Zeroed, ZeroSnaps, ResizeBlock, ZeroSizes;
    var s := State(Core(map["A" := Zeroed(0)], height, 0), false, map[], {"A"});
    var b := ResizeBlock(height, 5);
    ResizeApplies(height, 0, 5);
    NextAfter(height, 5);
    ReplayOne(s.core, b, false);
    ZeroedBooks();
    ZeroConsistent();
    ZeroNamed(s.core, b);
    FreshResize(s.core, b);
    RebuildIff(s, ZeroSnaps(), [b], false, Replay(s.core, [b], false).value);
  }

  lemma NextAfter(height: nat, sz: nat)
    ensures ResizeBlock(height, sz).statuses.height == height + 1
  {
  }

  lemma ZeroedBooks()
    ensures Exact(map["A" := Zeroed(0)], false) && Good(map["A" := Zeroed(5)], false)
  {
    ZeroedWellFormed(0);
    ZeroedWellFormed(5);
    hide WellFormed;
  }

  lemma ZeroConsistent()
    ensures var have := ToSnapshots(map["A" := Zeroed(0)]);
            Consistent(have, ZeroSnaps(), false) && HasExtra(have, ZeroSnaps(), false)
  {
    assert !Ignored("B", false) && "B" in ZeroSnaps();
  }

  lemma ZeroNamed(c: Core, b: Block)
    requires c.books == map["A" := Zeroed(0)] && b == ResizeBlock(c.height, 5)
    ensures AfterBlocks(c, ZeroSizes(c.books), [b], false).None?
  {
    var d := b.diffs.events[0];
    assert Zeroed(0).bids[0].sz == 0 && Zeroed(0).bids[0].oid == 1;
    assert 1 in ZeroOids(Zeroed(0).bids);
    assert d.oid in GoneOf(ZeroSizes(c.books), "A");
    assert AfterDiff(c.books, map[], ZeroSizes(c.books), d).None?;
    hide ApplyBlock;
  }

  lemma FreshResize(c: Core, b: Block)
    requires b == ResizeBlock(c.height, 5) && ApplyBlock(c, b, false).ok
    ensures FreshReplay(c, [b], false) && AllAgree([b], false)
  {
    FreshUpdate(c.books, OrderMap([]), b.diffs.events[0]);
    assert [b][0] == b && [b][1..] == [];
    hide ApplyBlock, FreshDiffs;
  }

  lemma FreshUpdate(books: Books, pending: map<nat, Status>, d: Diff)
    requires d.change.Update?
    ensures FreshDiffs(books, pending, [d], false)
  {
    hide ApplyDiff;
    assert [d][1..] == [];
  }

  // ----- time zero

  /** Divergence at the live height resets the time to 0. */
  lemma ZeroTimeExample(cfg: Config, l: Listener)
    requires l == Listener(3, Some([]), 0, Some(State(Core(map[], 5, 9), true, map[], {})), None, EmptyQueue(),
                           EmptyQueue(), [])
    ensures var snaps := map["A" := Snapshot([Bid7(5)], [])];
            QueuesAccounted(l) && Finish(cfg, l, 3, l.live, snaps, 5).l.live.Some?
            && Finish(cfg, l, 3, l.live, snaps, 5).l.live.value.core.time == 0
  {
    var snaps := map["A" := Snapshot([Bid7(5)], [])];
    var s := Sys(l, Running(3, l.live));
    assert !Ignored("A", cfg.ignoreSpot);
    assert "A" in snaps && !EmptySnapshot(snaps["A"]);
    assert !Consistent(ToSnapshots(map[]), snaps, cfg.ignoreSpot);
    assert AuditInv(cfg, s);
    assert AuditVerdict(cfg, s, snaps, 5) == Some(Diverged);
    hide Finish;
    CommitsAtLiveHeight(cfg, s, snaps, 5);
  }

  // ----- a node

  function OpenBlock(height: nat, time: nat): Block {
    Block(Batch(height + 1, time, [Status(Bid7(5), 3, "open")], 0),
          Batch(height + 1, time, [Diff(1, "A", 7, New(5, None))], 0))
  }

  lemma OpenApplies(height: nat, time: nat)
    ensures ApplyBlock(Core(map[], height, 0), OpenBlock(height, time), false) ==
            Advance(Core(map["A" := Zeroed(5)], height + 1, time), {"A"}, true)
    ensures LegalBlock(Core(map[], height, 0), OpenBlock(height, time), false)
  {
    var x, d := Status(Bid7(5), 3, "open"), Diff(1, "A", 7, New(5, None));
    assert [x][..0] == [] && IsInsertedIntoBook(x);
    assert OrderMap([x][..|[x]| - 1]) == map[];
    assert OrderMap([x]) == map[1 := x];
    assert AddBefore(EMPTY, Bid7(5), None) == Reply(Zeroed(5), true);
    var books := map["A" := Zeroed(5)];
    assert ApplyDiff(map[], map[1 := x], d) == Stage(books, map[], true);
    assert [d][1..] == [];
    assert ApplyDiffs(books, map[], [], false) == Applied(books, {}, true);
    assert ApplyDiffs(map[], map[1 := x], [d], false) == Applied(books, {"A"} + {}, true);
  }

  /** A node that opens an order: the promises asked of the node can be kept. */
  lemma SomeNode(height: nat, time: nat)
    ensures NodeOk(Node(Core(map[], height, 0), [OpenBlock(height, time)]), false)
  {
    var c, b := Core(map[], height, 0), OpenBlock(height, time);
    OpenApplies(height, time);
    hide ApplyBlock, LegalBlock;
    LegalOne(c, b, false);
    ReplayOne(c, b, false);
  }

  // ----- a repriced trigger

  /** As in the recorded block: a buy stop of limit 7.1973 and size 0, activated and resting at 7.917 with size 4.6. */
  function StopOrder(): Order {
    Order("UNI", 1, Bid, 719730000, 0, 1789698976729, true, "7.1973", "Price above 7.1973", None, "stop market")
  }

  function Activated(): Order {
    Order("UNI", 1, Bid, 791700000, 460000000, 1789698977793, false, "0.0", "Triggered", Some("Gtc"), "stop market")
  }

  function ActivationBlock(): Block {
    Block(Batch(101, 1789698977793, [Status(StopOrder(), 1789698977793, "triggered")], 0),
          Batch(101, 1789698977793, [Diff(1, "UNI", 791700000, New(460000000, None))], 0))
  }

  function RemovalBlock(): Block {
    Block(Batch(102, 1789698977793, [], 0), Batch(102, 1789698977793, [Diff(1, "UNI", 791700000, Remove)], 0))
  }

  /**
   The order rests where the diff says, with the fields of an activated trigger, and the later
   removal finds it there.
   */
  lemma TriggerRepricedExample()
    ensures var r := ApplyBlock(Core(map[], 100, 0), ActivationBlock(), false);
            && r.ok && r.touched == {"UNI"}
            && r.core == Core(map["UNI" := Book([Activated()], [], map[1 := (Bid, 791700000)])], 101, 1789698977793)
            && var q := ApplyBlock(r.core, RemovalBlock(), false);
               q.ok && q.core == Core(map["UNI" := EMPTY], 102, 1789698977793)
  {
    var s, d := Status(StopOrder(), 1789698977793, "triggered"), Diff(1, "UNI", 791700000, New(460000000, None));
    assert OrderMap([s]) == map[1 := s] by {
      assert [s][..0] == [] && OrderMap([s][..|[s]| - 1]) == map[];
    }
    var b := Book([Activated()], [], map[1 := (Bid, 791700000)]);
    assert AddBefore(EMPTY, Activated(), None) == Reply(b, true);
    assert ApplyDiff(map[], map[1 := s], d) == Stage(map["UNI" := b], map[], true);
    OnlyDiff(map[], map[1 := s], d, map["UNI" := b], map[]);
    RemovedAgain(b);
  }

  lemma OnlyDiff(books: Books, pending: map<nat, Status>, d: Diff, books': Books, pending': map<nat, Status>)
    requires ApplyDiff(books, pending, d) == Stage(books', pending', true) && !Ignored(d.coin, false)
    ensures ApplyDiffs(books, pending, [d], false) == Applied(books', {d.coin}, true)
  {
    hide ApplyDiff;
    assert [d][1..] == [];
    assert ApplyDiffs(books', pending', [], false) == Applied(books', {}, true);
    assert {d.coin} + {} == {d.coin};
  }

  lemma RemovedAgain(b: Book)
    requires b == Book([Activated()], [], map[1 := (Bid, 791700000)])
    ensures ApplyBlock(Core(map["UNI" := b], 101, 1789698977793), RemovalBlock(), false) ==
            Advance(Core(map["UNI" := EMPTY], 102, 1789698977793), {"UNI"}, true)
  {
    var d := Diff(1, "UNI", 791700000, Remove);
    assert Find(b.bids, 791700000, 1) == 0;
    assert Cancel(b, 1) == Reply(EMPTY, true);
    assert ApplyDiff(map["UNI" := b], map[], d) == Stage(map["UNI" := EMPTY], map[], true);
    OnlyDiff(map["UNI" := b], map[], d, map["UNI" := EMPTY], map[]);
    assert OrderMap([]) == map[];
  }
}
