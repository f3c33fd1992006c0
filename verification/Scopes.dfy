/**
 Running on a subset of the coins. Out-of-scope events are dropped while parsing; heights, times
 and the accounted record length are kept, so a scoped listener advances block by block with an
 unrestricted one and holds the same book for each coin in scope.
 */
module Scopes {
  import opened Prelude
  import opened FlatBook
  import opened Snapshots
  import opened Blocks
  import opened Replays

  /** Outcome-market coins: a hash sign followed by digits. */
  predicate IsHip4(coin: string) {
    |coin| > 1 && coin[0] == '#' && forall i :: 1 <= i < |coin| ==> '0' <= coin[i] <= '9'
  }

  datatype CoinScope = CoinScope(all: bool, extra: set<string>) {
    predicate Contains(coin: string) {
      all || IsHip4(coin) || coin in extra
    }
  }

  /** Every outcome coin is in scope; any other only if all are, or if it is listed. */
  lemma ScopeExact(scope: CoinScope, coin: string)
    ensures scope.Contains(coin) <==>
              || scope.all || coin in scope.extra
              || (exists digits :: && digits != "" && coin == "#" + digits
                                   && forall i :: 0 <= i < |digits| ==> '0' <= digits[i] <= '9')
  {
    if IsHip4(coin) {
      assert coin == "#" + coin[1..];
    }
  }

  function Filter<E>(s: seq<E>, f: E -> bool): seq<E> {
    if s == [] then [] else (if f(s[0]) then [s[0]] else []) + Filter(s[1..], f)
  }

  lemma {:induction false} FilterConcat<E>(s: seq<E>, t: seq<E>, f: E -> bool)
    ensures Filter(s + t, f) == Filter(s, f) + Filter(t, f)
  {
    if s == [] {
      assert s + t == t;
    } else {
      assert (s + t)[1..] == s[1..] + t;
      FilterConcat(s[1..], t, f);
      var first := if f(s[0]) then [s[0]] else [];
      assert first + (Filter(s[1..], f) + Filter(t, f)) == (first + Filter(s[1..], f)) + Filter(t, f);
    }
  }

  lemma FilterNone<E>(f: E -> bool)
    ensures Filter([], f) == []
  {
  }

  lemma FilterOne<E>(x: E, f: E -> bool)
    ensures Filter([x], f) == if f(x) then [x] else []
  {
    assert [x][1..] == [];
  }

  lemma {:induction false} FilterAll<E>(s: seq<E>, f: E -> bool)
    requires forall i :: 0 <= i < |s| ==> f(s[i])
    ensures Filter(s, f) == s
  {
    if s != [] {
      FilterAll(s[1..], f);
    }
  }

  function StatusIn(scope: CoinScope): Status -> bool {
    (s: Status) => scope.Contains(s.order.coin)
  }

  function DiffIn(scope: CoinScope): Diff -> bool {
    (d: Diff) => scope.Contains(d.coin)
  }

  /** The batch as parsed in scope: same height, time and record length, fewer events. */
  function Narrowed<E>(b: Batch<E>, f: E -> bool): Batch<E> {
    b.(events := Filter(b.events, f))
  }

  function NarrowedBlock(b: Block, scope: CoinScope): Block {
    Block(Narrowed(b.statuses, StatusIn(scope)), Narrowed(b.diffs, DiffIn(scope)))
  }

  /** Parsing in scope keeps exactly the in-scope events, in order. */
  method ParseInScope<E>(raw: Batch<E>, all: bool, inScope: E -> bool) returns (batch: Batch<E>)
    requires all ==> forall i :: 0 <= i < |raw.events| ==> inScope(raw.events[i])
    ensures batch == Narrowed(raw, inScope)
  {
    if all {
      FilterAll(raw.events, inScope);
      return raw;
    }
    var events := [];
    for i := 0 to |raw.events|
      invariant events == Filter(raw.events[..i], inScope)
    {
      FilterConcat(raw.events[..i], [raw.events[i]], inScope);
      assert raw.events[..i + 1] == raw.events[..i] + [raw.events[i]];
      assert [raw.events[i]][1..] == [];
      if inScope(raw.events[i]) {
        events := events + [raw.events[i]];
      }
    }
    assert raw.events[..|raw.events|] == raw.events;
    batch := Batch(raw.height, raw.time, events, raw.wire);
  }

  function InScope(coins: set<string>, scope: CoinScope): set<string> {
    set c | c in coins && scope.Contains(c)
  }

  function Restrict(books: Books, scope: CoinScope): Books {
    map c | c in books && scope.Contains(c) :: books[c]
  }

  /** Both listeners wait for the same status of every in-scope diff. */
  ghost predicate PendingMatches(full: map<nat, Status>, scoped: map<nat, Status>, diffs: seq<Diff>, scope: CoinScope) {
    forall j :: 0 <= j < |diffs| && scope.Contains(diffs[j].coin) ==>
      && (diffs[j].oid in full <==> diffs[j].oid in scoped)
      && (diffs[j].oid in full ==> full[diffs[j].oid] == scoped[diffs[j].oid])
  }

  lemma {:induction false} OrderMapNarrowed(s: seq<Status>, scope: CoinScope, oid: nat)
    requires forall i :: 0 <= i < |s| && s[i].order.oid == oid ==> scope.Contains(s[i].order.coin)
    ensures var m, n := OrderMap(s), OrderMap(Filter(s, StatusIn(scope)));
            (oid in m <==> oid in n) && (oid in m ==> m[oid] == n[oid])
  {
    hide Filter, IsInsertedIntoBook, CoinScope.Contains;
    if s == [] {
      FilterNone(StatusIn(scope));
    } else {
      var t, x, f := s[..|s| - 1], s[|s| - 1], StatusIn(scope);
      OrderMapNarrowed(t, scope, oid);
      assert t + [x] == s;
      FilterConcat(t, [x], f);
      FilterOne(x, f);
      LastOfMap(Filter(t, f), x);
      LastOfMap(t, x);
      hide OrderMap;
      if !f(x) {
        assert Filter(t, f) + [] == Filter(t, f);
      }
    }
  }

  lemma LastOfMap(t: seq<Status>, x: Status)
    ensures OrderMap(t + [x]) == if IsInsertedIntoBook(x) then OrderMap(t)[x.order.oid := x] else OrderMap(t)
  {
    assert (t + [x])[..|t|] == t;
  }

  lemma InScopeDiff(books: Books, full: map<nat, Status>, scoped: map<nat, Status>, d: Diff, scope: CoinScope,
                    ignoreSpot: bool)
    requires scope.Contains(d.coin) && !Ignored(d.coin, ignoreSpot) && PendingAgrees(full, [d], ignoreSpot)
    requires PendingMatches(full, scoped, [d], scope)
    ensures var s, t := ApplyDiff(books, full, d), ApplyDiff(Restrict(books, scope), scoped, d);
            && s.ok == t.ok
            && Restrict(s.books, scope) == t.books
            && ((s.pending == full && t.pending == scoped)
               || (s.pending == full - {d.oid} && t.pending == scoped - {d.oid}))
  {
    hide AddBefore, ModifySz, Cancel, CoinScope.Contains;
    assert [d][0] == d;
    var r := Restrict(books, scope);
    assert BookOf(books, d.coin) == BookOf(r, d.coin);
  }

  lemma OutOfScopeDiff(books: Books, full: map<nat, Status>, d: Diff, scope: CoinScope, ignoreSpot: bool)
    requires !scope.Contains(d.coin) && !Ignored(d.coin, ignoreSpot) && PendingAgrees(full, [d], ignoreSpot)
    ensures Restrict(ApplyDiff(books, full, d).books, scope) == Restrict(books, scope)
  {
    hide CoinScope.Contains, ApplyDiff;
    DiffTouchesItsCoin(books, full, d, ignoreSpot);
  }

  /** No in-scope diff shares its oid with an out-of-scope one. */
  ghost predicate OidsSplit(diffs: seq<Diff>, scope: CoinScope) {
    forall i, j :: 0 <= i < |diffs| && 0 <= j < |diffs| && diffs[i].oid == diffs[j].oid ==>
      (scope.Contains(diffs[i].coin) <==> scope.Contains(diffs[j].coin))
  }

  lemma {:induction false} DiffsProject(books: Books, full: map<nat, Status>, scoped: map<nat, Status>,
                                        diffs: seq<Diff>,
                                       scope: CoinScope, ignoreSpot: bool)
    requires PendingAgrees(full, diffs, ignoreSpot) && PendingMatches(full, scoped, diffs, scope)
    requires OidsSplit(diffs, scope)
    requires ApplyDiffs(books, full, diffs, ignoreSpot).ok
    ensures var r := ApplyDiffs(books, full, diffs, ignoreSpot);
            var s := ApplyDiffs(Restrict(books, scope), scoped, Filter(diffs, DiffIn(scope)), ignoreSpot);
            s.ok && s.books == Restrict(r.books, scope) && s.touched == InScope(r.touched, scope)
    decreases |diffs|
  {
    if diffs != [] {
      hide ApplyDiff, CoinScope.Contains, Restrict, PendingMatches, PendingAgrees, OidsSplit, Ignored, InScope, Filter;
      var d, rest, f := diffs[0], diffs[1..], DiffIn(scope);
      InScopeMore(d.coin, ApplyDiffs(ApplyDiff(books, full, d).books, ApplyDiff(books, full, d).pending, rest,
                                     ignoreSpot).touched, scope);
      ProjectTail(books, full, scoped, diffs, scope, ignoreSpot);
      if Ignored(d.coin, ignoreSpot) {
        DiffsProject(books, full, scoped, rest, scope, ignoreSpot);
        SkipIgnored(Restrict(books, scope), scoped, diffs, f, ignoreSpot);
      } else {
        var st := ApplyDiff(books, full, d);
        if f(d) {
          InScopeDiff(books, full, scoped, d, scope, ignoreSpot);
          var su := ApplyDiff(Restrict(books, scope), scoped, d);
          MatchesBoth(full, scoped, st.pending, su.pending, diffs, scope);
          DiffsProject(st.books, st.pending, su.pending, rest, scope, ignoreSpot);
          KeepFirst(diffs, f);
        } else {
          OutOfScopeDiff(books, full, d, scope, ignoreSpot);
          PendingShrinks(books, full, d);
          MatchesFull(full, scoped, st.pending, diffs, scope);
          DiffsProject(st.books, st.pending, scoped, rest, scope, ignoreSpot);
          KeepFirst(diffs, f);
        }
      }
    }
  }

  lemma InScopeMore(c: string, touched: set<string>, scope: CoinScope)
    ensures InScope({c} + touched, scope) == (if scope.Contains(c) then {c} else {}) + InScope(touched, scope)
  {
  }

  lemma ProjectTail(books: Books, full: map<nat, Status>, scoped: map<nat, Status>, diffs: seq<Diff>, scope: CoinScope,
                    ignoreSpot: bool)
    requires diffs != [] && PendingAgrees(full, diffs, ignoreSpot) && PendingMatches(full, scoped, diffs, scope)
    requires OidsSplit(diffs, scope)
    ensures var d, rest := diffs[0], diffs[1..];
            && PendingAgrees(full, [d], ignoreSpot) && PendingAgrees(full, rest, ignoreSpot)
            && PendingAgrees(ApplyDiff(books, full, d).pending, rest, ignoreSpot)
            && PendingMatches(full, scoped, [d], scope) && PendingMatches(full, scoped, rest, scope)
            && OidsSplit(rest, scope)
  {
    hide ApplyDiff, CoinScope.Contains;
    StepAgrees(books, full, diffs, ignoreSpot);
  }

  lemma MatchesBoth(full: map<nat, Status>, scoped: map<nat, Status>, full': map<nat, Status>,
                    scoped': map<nat, Status>,
                    diffs: seq<Diff>, scope: CoinScope)
    requires diffs != [] && PendingMatches(full, scoped, diffs, scope)
    requires || (full' == full && scoped' == scoped)
             || (full' == full - {diffs[0].oid} && scoped' == scoped - {diffs[0].oid})
    ensures PendingMatches(full', scoped', diffs[1..], scope)
  {
    hide CoinScope.Contains;
  }

  lemma MatchesFull(full: map<nat, Status>, scoped: map<nat, Status>, full': map<nat, Status>, diffs: seq<Diff>,
                    scope: CoinScope)
    requires diffs != [] && PendingMatches(full, scoped, diffs, scope) && OidsSplit(diffs, scope)
    requires !scope.Contains(diffs[0].coin)
    requires full' == full || full' == full - {diffs[0].oid}
    ensures PendingMatches(full', scoped, diffs[1..], scope)
  {
    hide CoinScope.Contains;
    var rest := diffs[1..];
    forall j | 0 <= j < |rest| && scope.Contains(rest[j].coin) ensures rest[j].oid != diffs[0].oid {
      assert rest[j] == diffs[j + 1];
    }
  }

  lemma KeepFirst(diffs: seq<Diff>, f: Diff -> bool)
    requires diffs != []
    ensures var kept := Filter(diffs, f);
            if f(diffs[0]) then kept != [] && kept[0] == diffs[0] && kept[1..] == Filter(diffs[1..], f)
            else kept == Filter(diffs[1..], f)
  {
  }

  lemma SkipIgnored(books: Books, pending: map<nat, Status>, diffs: seq<Diff>, f: Diff -> bool, ignoreSpot: bool)
    requires diffs != [] && Ignored(diffs[0].coin, ignoreSpot)
    ensures ApplyDiffs(books, pending, Filter(diffs, f), ignoreSpot) ==
              ApplyDiffs(books, pending, Filter(diffs[1..], f), ignoreSpot)
  {
    hide ApplyDiff;
    KeepFirst(diffs, f);
    hide Filter;
  }

  lemma PendingShrinks(books: Books, pending: map<nat, Status>, d: Diff)
    ensures var p := ApplyDiff(books, pending, d).pending; p == pending || p == pending - {d.oid}
  {
    hide AddBefore, ModifySz, Cancel;
  }

  /** Events of one block that share an oid name one coin, diffs included. */
  ghost predicate OneCoinPerOid(b: Block) {
    var st, df := b.statuses.events, b.diffs.events;
    && (forall i, j :: 0 <= i < |st| && 0 <= j < |df| && st[i].order.oid == df[j].oid ==>
         st[i].order.coin == df[j].coin)
    && (forall i, j :: 0 <= i < |df| && 0 <= j < |df| && df[i].oid == df[j].oid ==> df[i].coin == df[j].coin)
  }

  lemma BlockProjects(c: Core, b: Block, scope: CoinScope, ignoreSpot: bool)
    requires OneCoinPerOid(b) && ApplyBlock(c, b, ignoreSpot).ok
    ensures var r := ApplyBlock(c, b, ignoreSpot);
            var s := ApplyBlock(c.(books := Restrict(c.books, scope)), NarrowedBlock(b, scope), ignoreSpot);
            && s.ok && s.core == r.core.(books := Restrict(r.core.books, scope))
            && s.touched == InScope(r.touched, scope)
  {
    hide ApplyDiffs, OrderMap, CoinScope.Contains, Filter;
    var st, df := b.statuses.events, b.diffs.events;
    OrderMapAgrees(st, df, ignoreSpot);
    forall j | 0 <= j < |df| && scope.Contains(df[j].coin)
      ensures var m, n := OrderMap(st), OrderMap(Filter(st, StatusIn(scope)));
              (df[j].oid in m <==> df[j].oid in n) && (df[j].oid in m ==> m[df[j].oid] == n[df[j].oid])
    {
      OrderMapNarrowed(st, scope, df[j].oid);
    }
    if b.statuses.height == c.height + 1 {
      DiffsProject(c.books, OrderMap(st), OrderMap(Filter(st, StatusIn(scope))), df, scope, ignoreSpot);
    }
  }

  function NarrowedAll(blocks: seq<Block>, scope: CoinScope): (r: seq<Block>)
    ensures |r| == |blocks|
    ensures forall i {:trigger r[i]} :: 0 <= i < |r| ==> r[i] == NarrowedBlock(blocks[i], scope)
  {
    seq(|blocks|, i requires 0 <= i < |blocks| => NarrowedBlock(blocks[i], scope))
  }

  /**
   Scope projection over whole runs: whenever the unrestricted listener replays the blocks, the
   scoped one replays the filtered blocks, to the same height and time, with an identical book
   for every coin in scope and no other book.
   */
  lemma {:induction false} ReplayProjects(c: Core, blocks: seq<Block>, scope: CoinScope, ignoreSpot: bool)
    requires forall i :: 0 <= i < |blocks| ==> OneCoinPerOid(blocks[i])
    requires Replay(c, blocks, ignoreSpot).Some?
    ensures var r := Replay(c, blocks, ignoreSpot).value;
            Replay(c.(books := Restrict(c.books, scope)), NarrowedAll(blocks, scope), ignoreSpot)
              == Some(r.(books := Restrict(r.books, scope)))
    decreases |blocks|
  {
    if blocks != [] {
      hide ApplyBlock, NarrowedBlock, OneCoinPerOid, Restrict;
      BlockProjects(c, blocks[0], scope, ignoreSpot);
      NarrowKeepsHeader(blocks[0], scope);
      ReplayProjects(ApplyBlock(c, blocks[0], ignoreSpot).core, blocks[1..], scope, ignoreSpot);
      assert NarrowedAll(blocks, scope)[1..] == NarrowedAll(blocks[1..], scope);
    }
  }

  lemma NarrowKeepsHeader(b: Block, scope: CoinScope)
    ensures var n := NarrowedBlock(b, scope);
            && n.statuses.height == b.statuses.height && n.statuses.time == b.statuses.time
            && n.statuses.wire == b.statuses.wire && n.diffs.wire == b.diffs.wire
  {
    hide Filter;
  }

  /** One rebuilt book per snapshotted coin. */
  function FromSnapshots(snaps: map<string, Snapshot>, ignoreTriggers: bool): Books {
    map c | c in snaps :: FromSnapshot(snaps[c], ignoreTriggers)
  }

  /** The scoped starting point: rebuilding from the in-scope snapshots is restricting the rebuilt books. */
  lemma SnapshotsProject(snaps: map<string, Snapshot>, scope: CoinScope)
    ensures FromSnapshots(map c | c in snaps && scope.Contains(c) :: snaps[c], true) ==
              Restrict(FromSnapshots(snaps, true), scope)
  {
    hide FromSnapshot;
  }
}
