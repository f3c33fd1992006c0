/**
 The live state: all books at one height, and a cache of their views that is refreshed only for
 the coins touched since.
 */
module BookState {
  import opened Prelude
  import opened Orders
  import opened Matching
  import opened FlatBook
  import opened Snapshots
  import opened Buckets
  import opened Aggregation
  import opened Views
  import opened Blocks
  import opened Scopes

  type ViewMap = map<string, map<Precision, View>>

  datatype State = State(core: Core, snapped: bool, cache: ViewMap, dirty: set<string>)

  /** All views of all books, computed from scratch. */
  function AllViews(books: Books): ViewMap {
    map c | c in books :: ViewsOf(books[c])
  }

  function FromNode(snaps: map<string, Snapshot>, height: nat, time: nat): State {
    var books := FromSnapshots(snaps, true);
    State(Core(books, height, time), false, map[], books.Keys)
  }

  datatype StateReply = StateReply(state: State, ok: bool)

  function Updated(s: State, b: Block, ignoreSpot: bool): StateReply {
    var r := ApplyBlock(s.core, b, ignoreSpot);
    var snapped := s.snapped && r.core.height == s.core.height;
    StateReply(State(r.core, snapped, s.cache, s.dirty + r.touched), r.ok)
  }

  /** Recomputes the touched coins' views. */
  function Refreshed(s: State): State {
    s.(cache := s.cache + DirtyViews(s.core.books, s.dirty), dirty := {})
  }

  /** A state publishes its views at most once per height. */
  function Snapped(s: State): State {
    if s.snapped then s else Refreshed(s).(snapped := true)
  }

  /** Every coin not marked dirty has exactly its book's views in the cache, and only coins with books are cached. */
  ghost predicate CacheAgrees(s: State) {
    && s.cache.Keys <= s.core.books.Keys
    && forall c :: c in s.core.books && c !in s.dirty ==> c in s.cache && s.cache[c] == ViewsOf(s.core.books[c])
  }

  lemma FromNodeAgrees(snaps: map<string, Snapshot>, height: nat, time: nat)
    ensures CacheAgrees(FromNode(snaps, height, time))
  {
    hide ViewsOf, FromSnapshot;
  }

  /** Applying a block keeps the agreement, also when it fails half way. */
  lemma ApplyUpdatesAgrees(s: State, b: Block, ignoreSpot: bool)
    requires CacheAgrees(s) && CoinsAgree(b.statuses.events, b.diffs.events, ignoreSpot)
    ensures CacheAgrees(Updated(s, b, ignoreSpot).state)
  {
    hide ViewsOf, ApplyDiffs, OrderMap;
    OrderMapAgrees(b.statuses.events, b.diffs.events, ignoreSpot);
    UntouchedBooks(s.core.books, OrderMap(b.statuses.events), b.diffs.events, ignoreSpot);
  }

  /** After a refresh the whole cache equals a full rebuild. */
  lemma RefreshIsRebuild(s: State)
    requires CacheAgrees(s)
    ensures Refreshed(s).cache == AllViews(s.core.books) && Refreshed(s).dirty == {} && CacheAgrees(Refreshed(s))
  {
    hide ViewsOf;
  }

  lemma NothingDirty(s: State)
    requires s.dirty == {}
    ensures Refreshed(s) == s
  {
    hide ViewsOf;
    assert Refreshed(s).cache == s.cache;
  }

  // ----- exactly when a New diff keeps the agreement

  lemma {:induction false} UnitsConserve(s: seq<Order>)
    ensures Volume(Units(s)) == Total(s) && OrderCount(Units(s)) == |s|
  {
    if s != [] {
      var t, o := s[..|s| - 1], s[|s| - 1];
      UnitsConserve(t);
      TotalConcat(t, [o]);
      assert t + [o] == s && [o][1..] == [];
      assert Units(s)[..|s| - 1] == Units(t);
    }
  }

  /** The raw view shows each side's volume and number of orders. */
  lemma ViewsTell(b: Book, b': Book)
    requires ViewsOf(b) == ViewsOf(b')
    ensures Total(b.bids) == Total(b'.bids) && |b.bids| == |b'.bids|
    ensures Total(b.asks) == Total(b'.asks) && |b.asks| == |b'.asks|
  {
    assert RAW in ViewsOf(b) && ViewsOf(b)[RAW] == Direct(b, RAW) && ViewsOf(b')[RAW] == Direct(b', RAW);
    hide ViewsOf, Group, Units;
    UnitsConserve(b.bids);
    UnitsConserve(b'.bids);
    UnitsConserve(b.asks);
    UnitsConserve(b'.asks);
    GroupConserves(Units(b.bids), Bid, RAW);
    GroupConserves(Units(b'.bids), Bid, RAW);
    GroupConserves(Units(b.asks), Ask, RAW);
    GroupConserves(Units(b'.asks), Ask, RAW);
  }

  /** A match that changes neither volume nor number of the makers changes nothing. */
  lemma MatchSeen(makers: seq<Order>, side: Side, limit: nat, sz: nat)
    requires var r := Match(makers, side, limit, sz); Total(r.makers) == Total(makers) && |r.makers| == |makers|
    ensures Match(makers, side, limit, sz).makers == makers
  {
    MatchShape(makers, side, limit, sz);
    MatchConserves(makers, side, limit, sz);
    hide Match, Total;
    assert makers[0..] == makers;
  }

  predicate SameOrders(b: Book, b': Book) {
    b.bids == b'.bids && b.asks == b'.asks
  }

  /** An addition shows in the views unless it leaves every order as it was. */
  lemma AdditionSeen(b: Book, o: Order, before: Option<nat>)
    ensures var b' := AddBefore(b, o, before).book; ViewsOf(b) == ViewsOf(b') <==> SameOrders(b, b')
  {
    var b' := AddBefore(b, o, before).book;
    if ViewsOf(b) == ViewsOf(b') {
      ViewsTell(b, b');
      var makers := OnSide(b, Opposite(o.side));
      hide ViewsOf, Match;
      MatchSeen(makers, o.side, o.px, o.sz);
    } else {
      SameOrdersSameViews(b, b');
    }
  }

  lemma SameOrdersSameViews(b: Book, b': Book)
    ensures SameOrders(b, b') ==> ViewsOf(b) == ViewsOf(b')
  {
    if SameOrders(b, b') {
      forall p | Offered(p) ensures Cascaded(b, p) == Cascaded(b', p) {
        CascadedFromOrders(b, b', p);
      }
    }
  }

  lemma {:induction false} CascadedFromOrders(b: Book, b': Book, p: Precision)
    requires SameOrders(b, b') && Offered(p)
    ensures Cascaded(b, p) == Cascaded(b', p)
    decreases Rank(p)
  {
    hide Coarsen;
    if p != RAW {
      CascadedFromOrders(b, b', Source(p));
    }
  }

  /**
   A New diff marks its own coin but adds to its status's coin. The cache still agrees afterwards,
   whether the addition succeeds or not, if and only if the two coins are one, or the status's
   coin was marked already, or it has a book that the addition leaves as it was.
   */
  lemma NewDiffAgreesIff(s: State, pending: map<nat, Status>, d: Diff)
    requires CacheAgrees(s) && d.change.New? && d.oid in pending
    ensures var o := Opened(pending[d.oid], d.px, d.change.sz);
            var books := s.core.books;
            var s' := s.(core := s.core.(books := ApplyDiff(books, pending, d).books), dirty := s.dirty + {d.coin});
            CacheAgrees(s') <==>
              || o.coin == d.coin || o.coin in s.dirty
              || (o.coin in books && SameOrders(books[o.coin], AddBefore(books[o.coin], o, d.change.before).book))
  {
    hide ViewsOf, AddBefore;
    var o := Opened(pending[d.oid], d.px, d.change.sz);
    AdditionSeen(BookOf(s.core.books, o.coin), o, d.change.before);
  }

  /** Without the agreement on coins the cache goes stale: the book that changed is not the one marked. */
  lemma StaleCacheExample(s: State, b: Block, o: Order)
    requires s == State(Core(map["A" := EMPTY], 0, 0), false, AllViews(map["A" := EMPTY]), {})
    requires o.coin == "A" && o.oid == 1 && o.side == Bid && !o.isTrigger && o.tif == None
    requires b == Block(Batch(1, 0, [Status(o, 0, "open")], 0), Batch(1, 0, [Diff(1, "B", 7, New(5, None))], 0))
    ensures CacheAgrees(s) && !CacheAgrees(Updated(s, b, false).state)
  {
    var books := map["A" := EMPTY];
    var x := Status(o, 0, "open");
    var pending := OrderMap([x]);
    assert [x][..0] == [] && IsInsertedIntoBook(x);
    assert OrderMap([x][..|[x]| - 1]) == map[];
    assert pending == map[1 := x];
    var d := Diff(1, "B", 7, New(5, None));
    var o' := o.(px := 7, sz := 5);
    assert [d][1..] == [];
    var placed := AddBefore(EMPTY, o', None).book;
    assert placed.bids == [o'] && placed.asks == [];
    var st := ApplyDiff(books, pending, d);
    assert st.ok && st.books == map["A" := placed];
    var s' := Updated(s, b, false).state;
    assert s'.core.books["A"] == placed && "A" !in s'.dirty;
    RawViewSizes(placed, o');
  }

  lemma RawViewSizes(b: Book, o: Order)
    requires b.bids == [o]
    ensures ViewsOf(b) != ViewsOf(EMPTY)
  {
    var v, w := Cascaded(b, RAW), Cascaded(EMPTY, RAW);
    assert Units([o])[..0] == [];
    assert |v.bids| == 1 && |w.bids| == 0;
    assert RAW in ViewsOf(b) && ViewsOf(b)[RAW] == v && ViewsOf(EMPTY)[RAW] == w;
  }

  function DirtyViews(books: Books, dirty: set<string>): ViewMap {
    map c | c in books && c in dirty :: ViewsOf(books[c])
  }

  lemma NoDirtyViews(books: Books)
    ensures DirtyViews(books, {}) == map[]
  {
    hide ViewsOf;
  }

  lemma DirtyViewsMore(books: Books, done: set<string>, c: string)
    requires c in books
    ensures DirtyViews(books, done + {c}) == DirtyViews(books, done)[c := ViewsOf(books[c])]
  {
    hide ViewsOf;
  }

  lemma KnownDirtyViews(books: Books, dirty: set<string>)
    ensures DirtyViews(books, books.Keys * dirty) == DirtyViews(books, dirty)
  {
    hide ViewsOf;
  }

  // ----- the object

  class OrderBookState {
    const ignoreSpot: bool
    var books: Books
    var height: nat
    var time: nat
    var snapped: bool
    var l2Cache: ViewMap
    var dirtyCoins: set<string>

    ghost function Value(): State
      reads this
    {
      State(Core(books, height, time), snapped, l2Cache, dirtyCoins)
    }

    constructor FromSnapshot(snaps: map<string, Snapshot>, height: nat, time: nat, ignoreSpot: bool)
      ensures Value() == FromNode(snaps, height, time) && this.ignoreSpot == ignoreSpot
    {
      this.ignoreSpot := ignoreSpot;
      books := FromSnapshots(snaps, true);
      this.height, this.time, snapped, l2Cache := height, time, false, map[];
      dirtyCoins := FromSnapshots(snaps, true).Keys;
    }

    constructor Clone(other: OrderBookState)
      ensures Value() == other.Value() && ignoreSpot == other.ignoreSpot
    {
      ignoreSpot := other.ignoreSpot;
      books, height, time := other.books, other.height, other.time;
      snapped, l2Cache, dirtyCoins := other.snapped, other.l2Cache, other.dirtyCoins;
    }

    method ApplyUpdates(b: Block) returns (ok: bool)
      requires Paired(b)
      modifies this
      ensures StateReply(Value(), ok) == Updated(old(Value()), b, ignoreSpot)
    {
      hide ApplyDiff, OrderMap;
      if b.statuses.height > height + 1 {
        return false;
      } else if b.statuses.height <= height {
        return true;
      }
      var pending := CollectOpenings(b.statuses.events);
      ok := DrainDiffs(pending, b.diffs.events);
      if ok {
        height := height + 1;
        time := b.statuses.time;
        snapped := false;
      }
    }

    /** Applies diffs from the front until they run out or one fails. */
    method DrainDiffs(pending0: map<nat, Status>, diffs0: seq<Diff>) returns (ok: bool)
      modifies `books, `dirtyCoins
      ensures var r := ApplyDiffs(old(books), pending0, diffs0, ignoreSpot);
              books == r.books && dirtyCoins == old(dirtyCoins) + r.touched && ok == r.ok
    {
      hide ApplyDiff;
      var diffs, pending := diffs0, pending0;
      while diffs != []
        invariant var r := ApplyDiffs(old(books), pending0, diffs0, ignoreSpot);
                  var q := ApplyDiffs(books, pending, diffs, ignoreSpot);
                  q.books == r.books && q.ok == r.ok && dirtyCoins + q.touched == old(dirtyCoins) + r.touched
        decreases |diffs|
      {
        var d := diffs[0];
        if Ignored(d.coin, ignoreSpot) {
          diffs := diffs[1..];
          continue;
        }
        dirtyCoins := dirtyCoins + {d.coin};
        var st := ApplyDiff(books, pending, d);
        books, pending := st.books, st.pending;
        if !st.ok {
          return false;
        }
        diffs := diffs[1..];
      }
      ok := true;
    }

    method ComputeL2Snapshot() returns (views: ViewMap)
      modifies `l2Cache, `dirtyCoins
      ensures Value() == Refreshed(old(Value()))
      ensures views == Value().cache
    {
      hide ViewsOf, DirtyViews;
      if dirtyCoins != {} {
        var refreshed: ViewMap := map[];
        var todo := books.Keys * dirtyCoins;
        ghost var done: set<string> := {};
        NoDirtyViews(books);
        while todo != {}
          invariant done + todo == books.Keys * dirtyCoins
          invariant refreshed == DirtyViews(books, done)
          decreases |todo|
          modifies {}
        {
          var c :| c in todo;
          DirtyViewsMore(books, done, c);
          refreshed := refreshed[c := ViewsOf(books[c])];
          todo, done := todo - {c}, done + {c};
        }
        KnownDirtyViews(books, dirtyCoins);
        l2Cache := l2Cache + refreshed;
      } else {
        NothingDirty(Value());
      }
      dirtyCoins := {};
      views := l2Cache;
    }

    method L2Snapshots() returns (views: Option<ViewMap>)
      modifies `snapped, `l2Cache, `dirtyCoins
      ensures Value() == Snapped(old(Value()))
      ensures views == if old(snapped) then None else Some(Value().cache)
    {
      hide Refreshed;
      if snapped {
        return None;
      }
      var v := ComputeL2Snapshot();
      snapped := true;
      views := Some(v);
    }
  }

  method CollectOpenings(s: seq<Status>) returns (m: map<nat, Status>)
    ensures m == OrderMap(s)
  {
    m := map[];
    for i := 0 to |s|
      invariant m == OrderMap(s[..i])
    {
      assert s[..i + 1][..i] == s[..i];
      if IsInsertedIntoBook(s[i]) {
        m := m[s[i].order.oid := s[i]];
      }
    }
    assert s[..|s|] == s;
  }
}
