/**
 The encoded book frames shared by all connections. A view map lives at an address; a cached
 frame is found again by address, time and height. The cache holds on to the map it encoded, so
 that address keeps its contents, and whatever `Get` returns is what encoding afresh would give.
 */
module WireCache {
  import opened Prelude
  import opened Scopes
  import opened Buckets
  import opened Views
  import opened BookState

  datatype Subscription =
    | Trades(coin: string)
    | L2Book(coin: string, figs: Option<nat>, levels: Option<nat>, mantissa: Option<nat>)
    | L4Book(coin: string)

  const DEFAULT_LEVELS := 20
  const MAX_LEVELS := 100
  const MAX_WIRE_BYTES := 16 * 1024 * 1024
  const MAX_CACHE_BYTES := 2 * 1024 * 1024
  const MAX_CACHE_ENTRIES := 1024

  /** A book message. Its encoding is injective, so the message stands for it; only its length matters besides. */
  datatype Frame = Frame(coin: string, levels: View, time: nat, height: nat)

  type Size = Frame -> nat

  datatype GetReply = Found(frame: Frame) | NoView | TooBig

  const NO_LEVELS := View([], [])

  /** The levels a subscription selects; an outcome coin without a book is an empty book. */
  function Levels(sub: Subscription, views: ViewMap): Option<View> {
    if !sub.L2Book? then None
    else
      var p := Precision(sub.figs, sub.mantissa);
      var n := if sub.levels.Some? then sub.levels.value else DEFAULT_LEVELS;
      if sub.coin in views && p in views[sub.coin] then Some(Truncate(views[sub.coin][p], n))
      else if IsHip4(sub.coin) then Some(NO_LEVELS) else None
  }

  /** Encoding afresh, without any cache. */
  function Encoded(size: Size, sub: Subscription, views: ViewMap, time: nat, height: nat): GetReply {
    var v := Levels(sub, views);
    if v.None? then NoView
    else
      var f := Frame(sub.coin, v.value, time, height);
      if size(f) > MAX_WIRE_BYTES then TooBig else Found(f)
  }

  // ----- which subscriptions are valid

  predicate ValidSubscription(sub: Subscription, universe: set<string>) {
    && |sub.coin| <= 64
    && match sub
       case Trades(coin) => coin in universe || IsHip4(coin)
       case L4Book(coin) => coin in universe && !(coin != "" && coin[0] == '@')
       case L2Book(coin, figs, levels, mantissa) =>
         && (coin in universe || IsHip4(coin))
         && levels != Some(DEFAULT_LEVELS)
         && (levels.Some? ==> 0 < levels.value <= MAX_LEVELS)
         && (if figs.Some? then 2 <= figs.value <= 5 && (mantissa.Some? ==> figs.value >= 5 && mantissa.value in {2, 5})
             else mantissa.None?)
  }

  /**
   A book subscription is valid exactly when its coin is known or an outcome coin of at most 64
   characters, it names one of the seven precisions the server computes, and it asks for 1 to 100
   levels other than 20, or leaves their number out.
   */
  lemma ValidIsOffered(sub: Subscription, universe: set<string>)
    requires sub.L2Book?
    ensures ValidSubscription(sub, universe) <==>
              && |sub.coin| <= 64 && (sub.coin in universe || IsHip4(sub.coin))
              && Offered(Precision(sub.figs, sub.mantissa))
              && (sub.levels.None? || (1 <= sub.levels.value <= 100 && sub.levels.value != 20))
  {
    if sub.figs.Some? && sub.mantissa.Some? {
      assert 2 in {2, 5} && 5 in {2, 5};
    }
  }

  // ----- byte accounting

  ghost function Bytes(size: Size, m: map<Subscription, Frame>): nat {
    if m == map[] then 0
    else
      var k :| k in m;
      size(m[k]) + Bytes(size, m - {k})
  }

  lemma {:induction false} BytesWithout(size: Size, m: map<Subscription, Frame>, k: Subscription)
    requires k in m
    ensures Bytes(size, m) == size(m[k]) + Bytes(size, m - {k})
    decreases |m|
  {
    var c :| c in m && Bytes(size, m) == size(m[c]) + Bytes(size, m - {c});
    if c != k {
      BytesWithout(size, m - {c}, k);
      BytesWithout(size, m - {k}, c);
      assert m - {c} - {k} == m - {k} - {c};
    }
  }

  lemma BytesAdded(size: Size, m: map<Subscription, Frame>, k: Subscription, f: Frame)
    requires k !in m
    ensures Bytes(size, m[k := f]) == Bytes(size, m) + size(f)
  {
    BytesWithout(size, m[k := f], k);
    assert m[k := f] - {k} == m;
  }

  // ----- the cache

  /** View maps by address. */
  type Memory = map<nat, ViewMap>

  datatype Position = Position(addr: nat, time: nat, height: nat)

  class BookWireCache {
    const size: Size
    var position: Option<Position>
    var source: Option<nat>
    var entries: map<Subscription, Frame>
    var bytes: nat

    /** All entries encode the one retained map at the one position, and are accounted for within the bounds. */
    ghost predicate Valid(mem: Memory)
      reads this
    {
      && (position.None? ==> entries == map[] && source.None?)
      && (position.Some? ==> source == Some(position.value.addr) && position.value.addr in mem)
      && (forall sub :: sub in entries ==>
            Encoded(size, sub, mem[position.value.addr], position.value.time, position.value.height) ==
                Found(entries[sub]))
      && bytes == Bytes(size, entries) <= MAX_CACHE_BYTES
      && |entries| <= MAX_CACHE_ENTRIES
    }

    constructor (size: Size, mem: Memory)
      ensures Valid(mem) && this.size == size && position.None?
    {
      this.size := size;
      position, source, entries, bytes := None, None, map[], 0;
    }

    method Get(sub: Subscription, mem: Memory, addr: nat, time: nat, height: nat) returns (r: GetReply)
      requires Valid(mem) && addr in mem
      modifies this
      ensures Valid(mem)
      ensures r == (if sub.L2Book? then Encoded(size, sub, mem[addr], time, height) else NoView)
      ensures old(position).Some? ==>
                && position.Some?
                && position.value.height >= old(position).value.height
                   && position.value.time >= old(position).value.time
      ensures position == old(position) ==> forall s :: s in old(entries) ==>
                s in entries && entries[s] == old(entries)[s]
      ensures position != old(position) ==> position == Some(Position(addr, time, height))
    {
      hide Levels, Bytes;
      if !sub.L2Book? {
        return NoView;
      }
      var at := Position(addr, time, height);
      var cacheable := position.None? || (height >= position.value.height && time >= position.value.time);
      if cacheable && position != Some(at) {
        position, source := Some(at), Some(addr);
        entries, bytes := map[], 0;
        NoBytes(size);
      }
      if position == Some(at) && sub in entries {
        return Found(entries[sub]);
      }
      var v := Levels(sub, mem[addr]);
      if v.None? {
        return NoView;
      }
      var encoded := Frame(sub.coin, v.value, time, height);
      if size(encoded) > MAX_WIRE_BYTES {
        return TooBig;
      }
      if cacheable && bytes + size(encoded) <= MAX_CACHE_BYTES && |entries| < MAX_CACHE_ENTRIES {
        BytesAdded(size, entries, sub, encoded);
        bytes := bytes + size(encoded);
        entries := entries[sub := encoded];
      }
      r := Found(encoded);
    }

    /** Other owners may change, free and reuse any memory except the retained map. */
    lemma RetainedMemory(mem: Memory, mem': Memory)
      requires Valid(mem)
      requires (source.Some? ==> source.value in mem && source.value in mem' && mem'[source.value] == mem[source.value])
      ensures Valid(mem')
    {
      hide Encoded, Bytes;
    }
  }

  lemma NoBytes(size: Size)
    ensures Bytes(size, map[]) == 0
  {
  }
}
