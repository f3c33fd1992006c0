/** One order book object per coin. Operations on one coin leave every other coin's book alone. */
module MultiBook {
  import opened Prelude
  import opened Orders
  import opened FlatBook
  import opened Snapshots
  import opened Blocks
  import opened Scopes
  import opened LevelBook
  import opened Buckets
  import opened Views
  import opened BookViews
  import opened BookState
  import Listeners

  /** A book and its lists. */
  ghost function Footprint(b: OrderBook): set<object>
    reads b
  {
    {b} + b.bids.Values + b.asks.Values
  }

  ghost function Claim(owner: map<object, string>, xs: set<object>, coin: string): (r: map<object, string>)
    ensures r.Keys == owner.Keys + xs
    ensures forall x :: x in r ==> r[x] == if x in xs then coin else owner[x]
  {
    owner + (map x | x in xs :: coin)
  }

  class OrderBooks {
    var orderBooks: map<string, OrderBook>
    ghost var books: Books              // the values the objects stand for
    ghost var owner: map<object, string> // the coin each book and list belongs to

    /** The objects that belong to a coin. */
    ghost function Mine(coin: string): set<object>
      reads this
    {
      set x | x in owner && owner[x] == coin
    }

    /** The coin's book stands for its value and keeps to the coin's objects. */
    ghost predicate Holds(coin: string)
      requires coin in orderBooks
      reads this, orderBooks[coin], owner.Keys
    {
      && orderBooks[coin] in owner && Footprint(orderBooks[coin]) <= Mine(coin)
      && coin in books && orderBooks[coin].Valid() && orderBooks[coin].book == books[coin]
    }

    ghost predicate Valid()
      reads this, owner.Keys
    {
      && this !in owner && orderBooks.Keys == books.Keys
      && (forall c :: c in orderBooks ==> orderBooks[c] in owner)
      && (forall c :: c in orderBooks ==> Holds(c))
    }

    ghost predicate Others(coin: string)
      reads this, owner.Keys
    {
      forall c :: c in orderBooks && c != coin ==> orderBooks[c] in owner && Holds(c)
    }

    lemma Apart(coin: string)
      requires Valid()
      ensures Others(coin) && this !in owner && orderBooks.Keys == books.Keys
      ensures coin in orderBooks ==> Holds(coin)
    {
      hide Holds;
    }

    lemma Together(coin: string)
      requires this !in owner && orderBooks.Keys == books.Keys && coin in orderBooks && Others(coin)
      requires orderBooks[coin] in owner && Holds(coin)
      ensures Valid()
    {
      hide Holds;
    }

    /** Changing one coin's objects and value, and adding objects, keeps the other books. */
    twostate lemma OthersKept(coin: string)
      requires old(Others(coin)) && coin in books && books == old(books)[coin := books[coin]]
      requires coin in orderBooks && orderBooks == old(orderBooks)[coin := orderBooks[coin]]
      requires forall x :: x in old(owner) ==> x in owner && owner[x] == old(owner)[x]
      requires unchanged(old(owner.Keys) - old(Mine(coin)))
      ensures Others(coin)
    {
      hide Represents;
    }

    constructor Empty()
      ensures Valid() && books == map[] && owner == map[]
    {
      orderBooks, books, owner := map[], map[], map[];
    }

    /** A coin's first order creates its book. */
    method AddOrderBefore(o: Order, before: Option<nat>) returns (ok: bool)
      requires Valid()
      modifies this, owner.Keys
      ensures Valid() && fresh(owner.Keys - old(owner.Keys))
      ensures var r := AddBefore(BookOf(old(books), o.coin), o, before);
              books == old(books)[o.coin := r.book] && ok == r.ok
    {
      hide OrderBooks.Valid, AddBefore;
      Open(o.coin);
      ok := AddTo(o, before);
    }

    /** The coin's book, created empty if there is none. */
    method Open(coin: string)
      requires Valid()
      modifies this
      ensures Valid() && fresh(owner.Keys - old(owner.Keys)) && coin in orderBooks
      ensures books == old(books)[coin := BookOf(old(books), coin)]
    {
      hide OrderBooks.Valid, OrderBook.Valid, Others;
      Apart(coin);
      if coin !in orderBooks {
        var b := new OrderBook();
        orderBooks, books, owner := orderBooks[coin := b], books[coin := EMPTY], owner[b := coin];
        OthersKept(coin);
        Together(coin);
      }
    }

    method AddTo(o: Order, before: Option<nat>) returns (ok: bool)
      requires Valid() && o.coin in orderBooks
      modifies this, owner.Keys
      ensures Valid() && fresh(owner.Keys - old(owner.Keys))
      ensures var r := AddBefore(old(books)[o.coin], o, before);
              books == old(books)[o.coin := r.book] && ok == r.ok
    {
      hide OrderBooks.Valid, OrderBook.Valid, Others, AddBefore;
      Apart(o.coin);
      var b := orderBooks[o.coin];
      ok := b.AddOrderBefore(o, before);
      OthersKept(o.coin);
      Settle(o.coin);
    }

    /** Records the new value of a coin's book and the lists it has gained. */
    ghost method Settle(coin: string)
      requires this !in owner && orderBooks.Keys == books.Keys && coin in orderBooks && Others(coin)
      requires orderBooks[coin].Valid() && this !in Footprint(orderBooks[coin])
      requires Footprint(orderBooks[coin]) * owner.Keys <= Mine(coin)
      modifies `books, `owner
      ensures Valid() && books == old(books)[coin := orderBooks[coin].book]
      ensures owner.Keys == old(owner.Keys) + Footprint(orderBooks[coin])
    {
      hide OrderBooks.Valid, OrderBook.Valid, Others, Claim;
      var b := orderBooks[coin];
      forall x | x in Footprint(b) && x in owner ensures owner[x] == coin {
        assert x in Footprint(b) * owner.Keys;
      }
      books, owner := books[coin := b.book], Claim(owner, Footprint(b), coin);
      OthersKept(coin);
      Together(coin);
    }

    method CancelOrder(oid: nat, coin: string) returns (ok: bool)
      requires Valid()
      modifies this, owner.Keys
      ensures Valid() && owner == old(owner)
      ensures coin !in old(books) ==> !ok && books == old(books)
      ensures coin in old(books) ==>
                var r := Cancel(old(books)[coin], oid); books == old(books)[coin := r.book] && ok == r.ok
    {
      hide OrderBooks.Valid, OrderBook.Valid, Others, Cancel;
      Apart(coin);
      if coin !in orderBooks {
        return false;
      }
      var b := orderBooks[coin];
      ok := b.CancelOrder(oid);
      books := books[coin := b.book];
      OthersKept(coin);
      Together(coin);
    }

    method ModifySz(oid: nat, coin: string, sz: nat) returns (ok: bool)
      requires Valid()
      modifies this, owner.Keys
      ensures Valid() && owner == old(owner)
      ensures coin !in old(books) ==> !ok && books == old(books)
      ensures coin in old(books) ==>
                var r := FlatBook.ModifySz(old(books)[coin], oid, sz); books == old(books)[coin := r.book] && ok == r.ok
    {
      hide OrderBooks.Valid, OrderBook.Valid, Others, FlatBook.ModifySz;
      Apart(coin);
      if coin !in orderBooks {
        return false;
      }
      var b := orderBooks[coin];
      ok := b.ModifySz(oid, sz);
      books := books[coin := b.book];
      OthersKept(coin);
      Together(coin);
    }

    /** Takes over a complete book for a new coin. */
    method Adopt(coin: string, b: OrderBook)
      requires Valid() && coin !in books && b.Valid() && Footprint(b) !! owner.Keys && this !in Footprint(b)
      modifies this
      ensures Valid() && books == old(books)[coin := b.book] && owner.Keys == old(owner.Keys) + Footprint(b)
    {
      hide OrderBooks.Valid, OrderBook.Valid, Others;
      Apart(coin);
      orderBooks, books := orderBooks[coin := b], books[coin := EMPTY];
      OthersKept(coin);
      Settle(coin);
    }

    /** Rebuilds one coin's book as a new object. */
    method Load(coin: string, snap: Snapshot, ignoreTriggers: bool)
      requires Valid() && coin !in books
      modifies this
      ensures Valid() && fresh(owner.Keys - old(owner.Keys))
      ensures books == old(books)[coin := Snapshots.FromSnapshot(snap, ignoreTriggers)]
    {
      hide OrderBooks.Valid, OrderBook.Valid, OrderBooks.Holds, Snapshots.FromSnapshot;
      var b := LevelBook.FromSnapshot(snap, ignoreTriggers);
      Adopt(coin, b);
    }

    lemma KeysAgree()
      requires Valid()
      ensures orderBooks.Keys == books.Keys
    {
    }

    method SnapshotOf(coin: string) returns (snap: Snapshot)
      requires Valid() && coin in orderBooks
      ensures coin in books && snap == Snapshots.ToSnapshot(books[coin])
    {
      hide OrderBooks.Valid, OrderBook.Valid;
      Apart(coin);
      snap := orderBooks[coin].ToSnapshot();
    }

    method ViewsFor(coin: string) returns (views: map<Precision, View>)
      requires Valid() && coin in orderBooks
      ensures coin in books && views == ViewsOf(books[coin])
    {
      hide OrderBooks.Valid, OrderBook.Valid, ViewsOf;
      Apart(coin);
      views := ComputeViews(orderBooks[coin]);
    }

    method ToSnapshots() returns (snaps: map<string, Snapshot>)
      requires Valid()
      ensures snaps == Listeners.ToSnapshots(books)
    {
      hide OrderBooks.Valid, Snapshots.ToSnapshot;
      snaps := map[];
      var todo := orderBooks.Keys;
      while todo != {}
        invariant todo <= orderBooks.Keys
        invariant snaps.Keys == orderBooks.Keys - todo
        invariant forall c :: c in snaps ==> c in books && snaps[c] == Snapshots.ToSnapshot(books[c])
        decreases |todo|
      {
        var c :| c in todo;
        var snap := SnapshotOf(c);
        snaps := snaps[c := snap];
        todo := todo - {c};
      }
      KeysAgree();
    }

    /** One book diff, on the objects. */
    method Apply(pending: map<nat, Status>, d: Diff) returns (rest: map<nat, Status>, ok: bool)
      requires Valid()
      modifies this, owner.Keys
      ensures Valid() && fresh(owner.Keys - old(owner.Keys))
      ensures Stage(books, rest, ok) == ApplyDiff(old(books), pending, d)
    {
      hide OrderBooks.Valid, AddBefore, Cancel, FlatBook.ModifySz;
      rest, ok := pending, false;
      match d.change {
        case New(sz, before) =>
          if d.oid in pending {
            var o := Opened(pending[d.oid], d.px, sz);
            ok := AddOrderBefore(o, before);
            rest := pending - {d.oid};
          }
        case Update(sz) =>
          ok := ModifySz(d.oid, d.coin, sz);
        case Remove =>
          ok := CancelOrder(d.oid, d.coin);
        case Malformed =>
      }
    }

    /** A block's diffs in order, skipping ignored coins, until one fails. */
    method ApplyAll(pending0: map<nat, Status>, diffs: seq<Diff>, ignoreSpot: bool) returns (ok: bool)
      requires Valid()
      modifies this, owner.Keys
      ensures Valid() && fresh(owner.Keys - old(owner.Keys))
      ensures var r := ApplyDiffs(old(books), pending0, diffs, ignoreSpot); books == r.books && ok == r.ok
    {
      hide OrderBooks.Valid, ApplyDiff;
      var pending := pending0;
      for i := 0 to |diffs|
        invariant Valid() && fresh(owner.Keys - old(owner.Keys))
        invariant var r, q := ApplyDiffs(old(books), pending0, diffs, ignoreSpot),
                    ApplyDiffs(books, pending, diffs[i..], ignoreSpot);
                  q.books == r.books && q.ok == r.ok
      {
        assert diffs[i..][0] == diffs[i] && diffs[i..][1..] == diffs[i + 1..];
        if !Ignored(diffs[i].coin, ignoreSpot) {
          pending, ok := Apply(pending, diffs[i]);
          if !ok {
            return false;
          }
        }
      }
      ok := true;
    }
  }

  /** Recomputes the views of every dirty coin that has a book, coin by coin from its book object. */
  method RefreshViews(r: OrderBooks, cached: ViewMap, dirty: set<string>) returns (views: ViewMap)
    requires r.Valid()
    ensures views == cached + DirtyViews(r.books, dirty)
  {
    hide *;
    r.KeysAgree();
    ghost var books := r.books;
    var refreshed: ViewMap := map[];
    var todo := r.orderBooks.Keys * dirty;
    ghost var done: set<string> := {};
    NoDirtyViews(books);
    while todo != {}
      invariant done + todo == books.Keys * dirty
      invariant refreshed == DirtyViews(books, done)
      decreases |todo|
    {
      var c :| c in todo;
      var vs := r.ViewsFor(c);
      DirtyViewsMore(books, done, c);
      refreshed := refreshed[c := vs];
      todo, done := todo - {c}, done + {c};
    }
    KnownDirtyViews(books, dirty);
    views := cached + refreshed;
  }

  /** Rebuilds every coin's book. */
  method FromNodeSnapshots(snaps: map<string, Snapshot>, ignoreTriggers: bool) returns (r: OrderBooks)
    ensures fresh(r) && fresh(r.owner.Keys) && r.Valid()
    ensures r.books == FromSnapshots(snaps, ignoreTriggers)
  {
    hide OrderBooks.Valid, OrderBook.Valid, OrderBooks.Holds, Snapshots.FromSnapshot;
    r := new OrderBooks.Empty();
    var todo := snaps.Keys;
    while todo != {}
      invariant fresh(r) && fresh(r.owner.Keys) && r.Valid() && todo <= snaps.Keys
      invariant r.books.Keys == snaps.Keys - todo
      invariant forall c :: c in r.books ==> r.books[c] == Snapshots.FromSnapshot(snaps[c], ignoreTriggers)
      decreases |todo|
    {
      var c :| c in todo;
      r.Load(c, snaps[c], ignoreTriggers);
      todo := todo - {c};
    }
  }
}
