/**
 Blocks from the node and what they do to the books. A block pairs the order statuses of one
 height with its book diffs; applying it is a total function that also says where it stopped.
 */
module Blocks {
  import opened Prelude
  import opened Orders
  import opened FlatBook

  datatype Status = Status(order: Order, time: nat, status: string)

  predicate IsInsertedIntoBook(s: Status) {
    || (s.status == "open" && !s.order.isTrigger && s.order.tif != Some("Ioc"))
    || (s.order.isTrigger && s.status == "triggered")
  }

  /** `Malformed` stands for a diff or order whose numbers do not parse. */
  datatype Change = New(sz: nat, before: Option<nat>) | Update(newSz: nat) | Remove | Malformed

  datatype Diff = Diff(oid: nat, coin: string, px: nat, change: Change)

  datatype Batch<E> = Batch(height: nat, time: nat, events: seq<E>, wire: nat)

  datatype Block = Block(statuses: Batch<Status>, diffs: Batch<Diff>)

  /** Pairs are only ever formed from batches of one height. */
  predicate Paired(b: Block) {
    b.statuses.height == b.diffs.height
  }

  predicate IsSpot(coin: string) {
    (coin != "" && coin[0] == '@') || coin == "PURR/USDC"
  }

  type Books = map<string, Book>

  /** A coin without a book trades like one with an empty book. */
  function BookOf(books: Books, coin: string): Book {
    if coin in books then books[coin] else EMPTY
  }

  /** Opening statuses by oid; a later one replaces an earlier one. */
  function OrderMap(s: seq<Status>): map<nat, Status> {
    if s == [] then map[]
    else
      var m, x := OrderMap(s[..|s| - 1]), s[|s| - 1];
      if IsInsertedIntoBook(x) then m[x.order.oid := x] else m
  }

  datatype Stage = Stage(books: Books, pending: map<nat, Status>, ok: bool)

  /** The order a New diff rests: price and size from the diff, everything else from its status. */
  function Opened(s: Status, px: nat, sz: nat): Order {
    ConvertTrigger(s.order.(px := px, sz := sz), s.time)
  }

  function ApplyDiff(books: Books, pending: map<nat, Status>, d: Diff): Stage {
    match d.change
    case New(sz, before) =>
      if d.oid !in pending then Stage(books, pending, false)
      else
        var o := Opened(pending[d.oid], d.px, sz);
        var r := AddBefore(BookOf(books, o.coin), o, before);
        Stage(books[o.coin := r.book], pending - {d.oid}, r.ok)
    case Update(sz) =>
      if d.coin !in books then Stage(books, pending, false)
      else
        var r := ModifySz(books[d.coin], d.oid, sz);
        Stage(books[d.coin := r.book], pending, r.ok)
    case Remove =>
      if d.coin !in books then Stage(books, pending, false)
      else
        var r := Cancel(books[d.coin], d.oid);
        Stage(books[d.coin := r.book], pending, r.ok)
    case Malformed => Stage(books, pending, false)
  }

  datatype Applied = Applied(books: Books, touched: set<string>, ok: bool)

  predicate Ignored(coin: string, ignoreSpot: bool) {
    IsSpot(coin) && ignoreSpot
  }

  /** Diffs in order, skipping ignored coins, up to the first that fails. */
  function ApplyDiffs(books: Books, pending: map<nat, Status>, diffs: seq<Diff>, ignoreSpot: bool): Applied
    decreases |diffs|
  {
    if diffs == [] then Applied(books, {}, true)
    else if Ignored(diffs[0].coin, ignoreSpot) then ApplyDiffs(books, pending, diffs[1..], ignoreSpot)
    else
      var st := ApplyDiff(books, pending, diffs[0]);
      if !st.ok then Applied(st.books, {diffs[0].coin}, false)
      else
        var r := ApplyDiffs(st.books, st.pending, diffs[1..], ignoreSpot);
        r.(touched := {diffs[0].coin} + r.touched)
  }

  datatype Core = Core(books: Books, height: nat, time: nat)

  datatype Advance = Advance(core: Core, touched: set<string>, ok: bool)

  /** Old blocks are accepted without effect, a gap is refused, the next height is applied. */
  function ApplyBlock(c: Core, b: Block, ignoreSpot: bool): Advance {
    var h := b.statuses.height;
    if h > c.height + 1 then Advance(c, {}, false)
    else if h <= c.height then Advance(c, {}, true)
    else
      var r := ApplyDiffs(c.books, OrderMap(b.statuses.events), b.diffs.events, ignoreSpot);
      if r.ok then Advance(Core(r.books, c.height + 1, b.statuses.time), r.touched, true)
      else Advance(c.(books := r.books), r.touched, false)
  }

  /** A New diff that is not ignored names the coin of every opening status with its oid. */
  ghost predicate CoinsAgree(statuses: seq<Status>, diffs: seq<Diff>, ignoreSpot: bool) {
    forall i, j :: 0 <= i < |statuses| && 0 <= j < |diffs| && statuses[i].order.oid == diffs[j].oid ==>
      IsInsertedIntoBook(statuses[i]) && Opens(diffs[j], ignoreSpot) ==> statuses[i].order.coin == diffs[j].coin
  }

  predicate Opens(d: Diff, ignoreSpot: bool) {
    d.change.New? && !Ignored(d.coin, ignoreSpot)
  }

  /** The same, of the statuses still waiting for their diff. */
  ghost predicate PendingAgrees(pending: map<nat, Status>, diffs: seq<Diff>, ignoreSpot: bool) {
    && (forall oid :: oid in pending ==> pending[oid].order.oid == oid)
    && (forall j :: 0 <= j < |diffs| && diffs[j].oid in pending && Opens(diffs[j], ignoreSpot) ==>
         pending[diffs[j].oid].order.coin == diffs[j].coin)
  }

  lemma {:induction false} OrderMapFrom(s: seq<Status>, oid: nat)
    requires oid in OrderMap(s)
    ensures OrderMap(s)[oid] in s && OrderMap(s)[oid].order.oid == oid && IsInsertedIntoBook(OrderMap(s)[oid])
  {
    var x := s[|s| - 1];
    if !(IsInsertedIntoBook(x) && x.order.oid == oid) {
      OrderMapFrom(s[..|s| - 1], oid);
    }
  }

  lemma OrderMapAgrees(statuses: seq<Status>, diffs: seq<Diff>, ignoreSpot: bool)
    requires CoinsAgree(statuses, diffs, ignoreSpot)
    ensures PendingAgrees(OrderMap(statuses), diffs, ignoreSpot)
  {
    forall oid | oid in OrderMap(statuses) ensures OrderMap(statuses)[oid].order.oid == oid {
      OrderMapFrom(statuses, oid);
    }
    forall j | 0 <= j < |diffs| && diffs[j].oid in OrderMap(statuses) && Opens(diffs[j], ignoreSpot)
      ensures OrderMap(statuses)[diffs[j].oid].order.coin == diffs[j].coin
    {
      OrderMapFrom(statuses, diffs[j].oid);
    }
  }

  lemma StepAgrees(books: Books, pending: map<nat, Status>, diffs: seq<Diff>, ignoreSpot: bool)
    requires diffs != [] && PendingAgrees(pending, diffs, ignoreSpot)
    ensures PendingAgrees(ApplyDiff(books, pending, diffs[0]).pending, diffs[1..], ignoreSpot)
    ensures PendingAgrees(pending, diffs[1..], ignoreSpot) && PendingAgrees(pending, [diffs[0]], ignoreSpot)
  {
  }

  // ----- what a block touches

  /** A diff changes no book but that of its own coin. */
  lemma DiffTouchesItsCoin(books: Books, pending: map<nat, Status>, d: Diff, ignoreSpot: bool)
    requires PendingAgrees(pending, [d], ignoreSpot) && !Ignored(d.coin, ignoreSpot)
    ensures var st := ApplyDiff(books, pending, d);
            && books.Keys <= st.books.Keys <= books.Keys + {d.coin}
            && forall c :: c in books && c != d.coin ==> st.books[c] == books[c]
  {
    assert [d][0] == d;
    hide AddBefore, ModifySz, Cancel;
  }

  lemma {:induction false} UntouchedBooks(books: Books, pending: map<nat, Status>, diffs: seq<Diff>, ignoreSpot: bool)
    requires PendingAgrees(pending, diffs, ignoreSpot)
    ensures var r := ApplyDiffs(books, pending, diffs, ignoreSpot);
            && books.Keys <= r.books.Keys <= books.Keys + r.touched
            && forall c :: c in books && c !in r.touched ==> r.books[c] == books[c]
    decreases |diffs|
  {
    hide ApplyDiff;
    if diffs != [] {
      StepAgrees(books, pending, diffs, ignoreSpot);
      if Ignored(diffs[0].coin, ignoreSpot) {
        UntouchedBooks(books, pending, diffs[1..], ignoreSpot);
      } else {
        var st := ApplyDiff(books, pending, diffs[0]);
        DiffTouchesItsCoin(books, pending, diffs[0], ignoreSpot);
        if st.ok {
          UntouchedBooks(st.books, st.pending, diffs[1..], ignoreSpot);
        }
      }
    }
  }
}
