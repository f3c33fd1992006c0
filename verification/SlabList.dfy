/**
 The keyed, doubly linked list that holds one price level. Nodes live in a slab (slot -> node)
 and refer to one another by slot; a second map finds the slot of a key.
 `Entries()` is the abstract value: the (key, value) pairs in list order.
 */
module SlabList {
  import opened Prelude

  datatype Node<K, T> = Node(key: K, value: T, next: Option<nat>, prev: Option<nat>)

  /** Position of a key in a list of entries; |s| when absent. */
  function IndexOf<K(==), T>(s: seq<(K, T)>, key: K): (i: nat)
    ensures i <= |s|
    ensures i < |s| ==> s[i].0 == key
    ensures forall j :: 0 <= j < i ==> s[j].0 != key
  {
    if s == [] then 0
    else if s[0].0 == key then 0
    else 1 + IndexOf(s[1..], key)
  }

  function HasKey<K(==), T>(s: seq<(K, T)>, key: K): (b: bool)
    ensures b <==> exists i :: 0 <= i < |s| && s[i].0 == key
  {
    IndexOf(s, key) < |s|
  }

  function FoldLeft<Acc, T>(init: Acc, s: seq<T>, f: (Acc, T) -> Acc): Acc {
    if s == [] then init else f(FoldLeft(init, s[..|s| - 1], f), s[|s| - 1])
  }

  function Values<K, T>(s: seq<(K, T)>): (v: seq<T>)
    ensures |v| == |s|
    ensures forall i :: 0 <= i < |s| ==> v[i] == s[i].1
  {
    seq(|s|, i requires 0 <= i < |s| => s[i].1)
  }

  function Reversed<T>(s: seq<T>): (r: seq<T>)
    ensures |r| == |s|
    ensures forall i :: 0 <= i < |s| ==> r[i] == s[|s| - 1 - i]
  {
    seq(|s|, i requires 0 <= i < |s| => s[|s| - 1 - i])
  }

  function Link(s: seq<nat>, i: int): Option<nat> {
    if 0 <= i < |s| then Some(s[i]) else None
  }

  ghost predicate Distinct(s: seq<nat>) {
    forall i, j :: 0 <= i < j < |s| ==> s[i] != s[j]
  }

  /** The slots of s are exactly the live ones. */
  ghost predicate Covers<N>(slab: map<nat, N>, s: seq<nat>) {
    && (forall i :: 0 <= i < |s| ==> s[i] in slab)
    && (forall t :: t in slab ==> t in s)
  }

  /** Following `next` from the first slot, or `prev` from the last, visits s. */
  ghost predicate Chained<K, T>(slab: map<nat, Node<K, T>>, s: seq<nat>) {
    && (forall i :: 0 <= i < |s| ==> s[i] in slab)
    && (forall i, j :: 0 <= i < |s| && 0 <= j < |s| && j == i + 1 ==>
          slab[s[i]].next == Some(s[j]) && slab[s[j]].prev == Some(s[i]))
    && (s != [] ==> slab[s[0]].prev == None && slab[s[|s| - 1]].next == None)
  }

  ghost predicate Linked<K, T>(slab: map<nat, Node<K, T>>, s: seq<nat>) {
    Distinct(s) && Covers(slab, s) && Chained(slab, s)
  }

  /** The key index is a bijection onto the live slots. */
  ghost predicate Indexed<K, T>(keyToSid: map<K, nat>, slab: map<nat, Node<K, T>>) {
    && (forall t {:trigger slab[t]} :: t in slab ==> slab[t].key in keyToSid && keyToSid[slab[t].key] == t)
    && (forall k :: k in keyToSid ==> keyToSid[k] in slab && slab[keyToSid[k]].key == k)
  }

  ghost function EntriesOf<K, T>(slab: map<nat, Node<K, T>>, s: seq<nat>): (r: seq<(K, T)>)
    requires forall i :: 0 <= i < |s| ==> s[i] in slab
    ensures |r| == |s|
    ensures forall i {:trigger r[i]} :: 0 <= i < |s| ==> r[i] == (slab[s[i]].key, slab[s[i]].value)
  {
    seq(|s|, i requires 0 <= i < |s| => (slab[s[i]].key, slab[s[i]].value))
  }

  /** The slab after linking a new node between the slots `prev` and `next`. */
  ghost function Spliced<K, T>(slab: map<nat, Node<K, T>>, sid: nat, key: K, value: T, prev: Option<nat>,
                               next: Option<nat>)
    : map<nat, Node<K, T>>
  {
    map t | t in slab.Keys + {sid} ::
      if t == sid then Node(key, value, next, prev)
      else slab[t].(next := if prev == Some(t) then Some(sid) else slab[t].next,
                    prev := if next == Some(t) then Some(sid) else slab[t].prev)
  }

  /** Writing the node and then its neighbours' links produces that slab. */
  lemma SpliceByWrites<K, T>(slab: map<nat, Node<K, T>>, sid: nat, key: K, value: T, prev: Option<nat>,
                             next: Option<nat>)
    requires sid !in slab
    requires prev.Some? ==> prev.value in slab
    requires next.Some? ==> next.value in slab && next != prev
    ensures var w0 := slab[sid := Node(key, value, next, prev)];
            var w1 := if next.Some? then w0[next.value := w0[next.value].(prev := Some(sid))] else w0;
            var w2 := if prev.Some? then w1[prev.value := w1[prev.value].(next := Some(sid))] else w1;
            w2 == Spliced(slab, sid, key, value, prev, next)
  {
  }

  lemma AppendByWrites<K, T>(slab: map<nat, Node<K, T>>, sid: nat, key: K, value: T, prev: Option<nat>)
    requires sid !in slab && (prev.Some? ==> prev.value in slab)
    ensures var w0 := slab[sid := Node(key, value, None, None)];
            var w1 := if prev.Some? then w0[prev.value := w0[prev.value].(next := Some(sid))] else w0;
            var w2 := if prev.Some? then w1[sid := w1[sid].(prev := prev)] else w1;
            w2 == Spliced(slab, sid, key, value, prev, None)
  {
  }

  lemma SplicedIndexed<K, T>(index: map<K, nat>, slab: map<nat, Node<K, T>>, sid: nat, key: K, value: T,
                             prev: Option<nat>, next: Option<nat>)
    requires Indexed(index, slab) && sid !in slab && key !in index
    ensures Indexed(index[key := sid], Spliced(slab, sid, key, value, prev, next))
  {
  }

  lemma SplicedCovers<K, T>(slab: map<nat, Node<K, T>>, s: seq<nat>, at: nat, sid: nat, slab': map<nat, Node<K, T>>)
    requires Distinct(s) && Covers(slab, s) && at <= |s| && sid !in slab
    requires slab'.Keys == slab.Keys + {sid}
    ensures Distinct(InsertAt(s, at, sid)) && Covers(slab', InsertAt(s, at, sid))
  {
    var s' := InsertAt(s, at, sid);
    forall t | t in slab' ensures t in s' {
      if t == sid {
        assert s'[at] == sid;
      } else {
        assert t in slab;
        var i :| 0 <= i < |s| && s[i] == t;
        assert s'[if i < at then i else i + 1] == t;
      }
    }
  }

  lemma SplicedChained<K, T>(slab: map<nat, Node<K, T>>, s: seq<nat>, at: nat, sid: nat, key: K, value: T)
    requires Distinct(s) && Chained(slab, s) && at <= |s| && sid !in slab
    ensures Chained(Spliced(slab, sid, key, value, Link(s, at - 1), Link(s, at)), InsertAt(s, at, sid))
  {
    var slab', s' := Spliced(slab, sid, key, value, Link(s, at - 1), Link(s, at)), InsertAt(s, at, sid);
    forall i, j | 0 <= i < |s'| && 0 <= j < |s'| && j == i + 1
      ensures slab'[s'[i]].next == Some(s'[j]) && slab'[s'[j]].prev == Some(s'[i])
    {
      if j < at {
        assert s'[i] == s[i] && s'[j] == s[j];
      } else if i > at {
        assert s'[i] == s[i - 1] && s'[j] == s[j - 1];
      } else if j == at {
        assert s'[i] == s[i] && s'[j] == sid;
      } else {
        assert s'[i] == sid && s'[j] == s[i];
      }
    }
  }

  lemma SplicedIsLinked<K, T>(slab: map<nat, Node<K, T>>, s: seq<nat>, at: nat, sid: nat, key: K, value: T)
    requires Linked(slab, s) && at <= |s| && sid !in slab
    ensures Linked(Spliced(slab, sid, key, value, Link(s, at - 1), Link(s, at)), InsertAt(s, at, sid))
  {
    SplicedCovers(slab, s, at, sid, Spliced(slab, sid, key, value, Link(s, at - 1), Link(s, at)));
    SplicedChained(slab, s, at, sid, key, value);
  }

  lemma SplicedEntries<K, T>(slab: map<nat, Node<K, T>>, s: seq<nat>, at: nat, sid: nat, key: K, value: T)
    requires Covers(slab, s) && at <= |s| && sid !in slab
    requires Covers(Spliced(slab, sid, key, value, Link(s, at - 1), Link(s, at)), InsertAt(s, at, sid))
    ensures EntriesOf(Spliced(slab, sid, key, value, Link(s, at - 1), Link(s, at)), InsertAt(s, at, sid))
         == InsertAt(EntriesOf(slab, s), at, (key, value))
  {
    var slab', s' := Spliced(slab, sid, key, value, Link(s, at - 1), Link(s, at)), InsertAt(s, at, sid);
    var r, r' := InsertAt(EntriesOf(slab, s), at, (key, value)), EntriesOf(slab', s');
    forall i | 0 <= i < |s'| ensures r'[i] == r[i] {
      if i < at {
        assert s'[i] == s[i];
      } else if i > at {
        assert s'[i] == s[i - 1];
      }
    }
  }

  /** The slab after unlinking a slot whose neighbours are `prev` and `next`. */
  ghost function Unlinked<K, T>(slab: map<nat, Node<K, T>>, sid: nat, prev: Option<nat>, next: Option<nat>)
    : map<nat, Node<K, T>>
  {
    map t | t in slab && t != sid ::
      slab[t].(next := if prev == Some(t) then next else slab[t].next,
               prev := if next == Some(t) then prev else slab[t].prev)
  }

  lemma UnlinkByWrites<K, T>(slab: map<nat, Node<K, T>>, sid: nat, prev: Option<nat>, next: Option<nat>)
    requires sid in slab && prev != Some(sid) && next != Some(sid)
    requires prev.Some? ==> prev.value in slab
    requires next.Some? ==> next.value in slab && next != prev
    ensures var w0 := slab - {sid};
            var w1 := if prev.Some? then w0[prev.value := w0[prev.value].(next := next)] else w0;
            var w2 := if next.Some? then w1[next.value := w1[next.value].(prev := prev)] else w1;
            w2 == Unlinked(slab, sid, prev, next)
  {
  }

  lemma UnlinkedIndexed<K, T>(index: map<K, nat>, slab: map<nat, Node<K, T>>, sid: nat, prev: Option<nat>,
                              next: Option<nat>)
    requires Indexed(index, slab) && sid in slab
    ensures Indexed(index - {slab[sid].key}, Unlinked(slab, sid, prev, next))
  {
  }

  lemma UnlinkedCovers<K, T>(slab: map<nat, Node<K, T>>, s: seq<nat>, at: nat, slab': map<nat, Node<K, T>>)
    requires Distinct(s) && Covers(slab, s) && at < |s|
    requires slab'.Keys == slab.Keys - {s[at]}
    ensures Distinct(Without(s, at)) && Covers(slab', Without(s, at))
  {
    var s' := Without(s, at);
    forall t | t in slab' ensures t in s' {
      assert t in slab;
      var i :| 0 <= i < |s| && s[i] == t;
      assert s'[if i < at then i else i - 1] == t;
    }
  }

  lemma UnlinkedChained<K, T>(slab: map<nat, Node<K, T>>, s: seq<nat>, at: nat)
    requires Distinct(s) && Chained(slab, s) && at < |s|
    ensures Chained(Unlinked(slab, s[at], Link(s, at - 1), Link(s, at + 1)), Without(s, at))
  {
    var slab', s' := Unlinked(slab, s[at], Link(s, at - 1), Link(s, at + 1)), Without(s, at);
    forall i, j | 0 <= i < |s'| && 0 <= j < |s'| && j == i + 1
      ensures slab'[s'[i]].next == Some(s'[j]) && slab'[s'[j]].prev == Some(s'[i])
    {
      if j < at {
        assert s'[i] == s[i] && s'[j] == s[j];
      } else if i >= at {
        assert s'[i] == s[i + 1] && s'[j] == s[j + 1];
      } else {
        assert s'[i] == s[i] && s'[j] == s[j + 1];
      }
    }
  }

  lemma UnlinkedIsLinked<K, T>(slab: map<nat, Node<K, T>>, s: seq<nat>, at: nat)
    requires Linked(slab, s) && at < |s|
    ensures Linked(Unlinked(slab, s[at], Link(s, at - 1), Link(s, at + 1)), Without(s, at))
  {
    UnlinkedCovers(slab, s, at, Unlinked(slab, s[at], Link(s, at - 1), Link(s, at + 1)));
    UnlinkedChained(slab, s, at);
  }

  lemma UnlinkedEntries<K, T>(slab: map<nat, Node<K, T>>, s: seq<nat>, at: nat)
    requires Covers(slab, s) && at < |s|
    requires Covers(Unlinked(slab, s[at], Link(s, at - 1), Link(s, at + 1)), Without(s, at))
    ensures EntriesOf(Unlinked(slab, s[at], Link(s, at - 1), Link(s, at + 1)), Without(s, at)) ==
              Without(EntriesOf(slab, s), at)
  {
  }

  /** Writing a value in place disturbs no link. */
  lemma RewrittenIsLinked<K, T>(slab: map<nat, Node<K, T>>, s: seq<nat>, at: nat, value: T)
    requires Linked(slab, s) && at < |s|
    ensures var slab' := slab[s[at] := slab[s[at]].(value := value)];
            && Linked(slab', s)
            && EntriesOf(slab', s) == EntriesOf(slab, s)[at := (slab[s[at]].key, value)]
  {
  }

  lemma Neighbours<K, T>(slab: map<nat, Node<K, T>>, s: seq<nat>, at: nat)
    requires Linked(slab, s) && at < |s|
    ensures var prev, next := Link(s, at - 1), Link(s, at + 1);
            && s[at] in slab && slab[s[at]].next == next && slab[s[at]].prev == prev
            && prev != Some(s[at]) && next != Some(s[at])
            && (prev.Some? ==> prev.value in slab)
            && (next.Some? ==> next.value in slab && next != prev)
  {
    if at + 1 < |s| {
      assert slab[s[at]].next == Some(s[at + 1]);
    }
    if at > 0 {
      assert slab[s[at]].prev == Some(s[at - 1]);
    }
  }

  /** A vacant slot: whichever one the slab's allocator picks. */
  method VacantSlot<N>(slab: map<nat, N>) returns (sid: nat)
    ensures sid !in slab
  {
    sid := 0;
    var left := slab.Keys;
    while sid in slab
      invariant left <= slab.Keys
      invariant forall s :: s in slab && s !in left ==> s < sid
      decreases left
    {
      assert sid in left;
      left := left - {sid};
      sid := sid + 1;
    }
  }

  class LinkedList<K(==), T> {
    var keyToSid: map<K, nat>
    var slab: map<nat, Node<K, T>>
    var head: Option<nat>
    var tail: Option<nat>
    ghost var sids: seq<nat> // the slots in list order

    /** Forward and backward links both spell `sids`; slots and keys are in bijection. */
    ghost predicate Valid()
      reads this
    {
      && head == Link(sids, 0)
      && tail == Link(sids, |sids| - 1)
      && Linked(slab, sids)
      && Indexed(keyToSid, slab)
    }

    ghost function Entries(): (s: seq<(K, T)>)
      requires Valid()
      reads this
    {
      EntriesOf(slab, sids)
    }

    lemma EntriesHaveDistinctKeys(i: nat, j: nat)
      requires Valid() && i < j < |Entries()|
      ensures Entries()[i].0 != Entries()[j].0
    {
      assert keyToSid[slab[sids[i]].key] == sids[i] && keyToSid[slab[sids[j]].key] == sids[j];
    }

    constructor ()
      ensures Valid() && Entries() == []
    {
      keyToSid, slab, head, tail := map[], map[], None, None;
      sids := [];
    }

    lemma KeyLookup(key: K)
      requires Valid()
      ensures key in keyToSid <==> HasKey(Entries(), key)
      ensures key in keyToSid ==> sids[IndexOf(Entries(), key)] == keyToSid[key]
    {
      if key in keyToSid {
        var i :| 0 <= i < |sids| && sids[i] == keyToSid[key];
        assert Entries()[i].0 == key;
      }
    }

    /** What linking a fresh node into position `at` makes of the list. */
    lemma Place(at: nat, sid: nat, key: K, value: T)
      requires Valid() && at <= |sids| && sid !in slab && key !in keyToSid
      ensures var slab' := Spliced(slab, sid, key, value, Link(sids, at - 1), Link(sids, at));
              && Linked(slab', InsertAt(sids, at, sid))
              && Indexed(keyToSid[key := sid], slab')
              && EntriesOf(slab', InsertAt(sids, at, sid)) == InsertAt(EntriesOf(slab, sids), at, (key, value))
    {
      SplicedIsLinked(slab, sids, at, sid, key, value);
      SplicedEntries(slab, sids, at, sid, key, value);
      SplicedIndexed(keyToSid, slab, sid, key, value, Link(sids, at - 1), Link(sids, at));
    }

    /** What unlinking the node at position `at` makes of the list. */
    lemma Drop(at: nat)
      requires Valid() && at < |sids|
      ensures var prev, next := Link(sids, at - 1), Link(sids, at + 1);
              var slab' := Unlinked(slab, sids[at], prev, next);
              && Linked(slab', Without(sids, at))
              && Indexed(keyToSid - {slab[sids[at]].key}, slab')
              && EntriesOf(slab', Without(sids, at)) == Without(EntriesOf(slab, sids), at)
      ensures var prev, next := Link(sids, at - 1), Link(sids, at + 1);
              && sids[at] in slab && slab[sids[at]].next == next && slab[sids[at]].prev == prev
              && prev != Some(sids[at]) && next != Some(sids[at])
              && (prev.Some? ==> prev.value in slab)
              && (next.Some? ==> next.value in slab && next != prev)
    {
      Neighbours(slab, sids, at);
      UnlinkedIsLinked(slab, sids, at);
      UnlinkedEntries(slab, sids, at);
      UnlinkedIndexed(keyToSid, slab, sids[at], Link(sids, at - 1), Link(sids, at + 1));
    }

    method PushBack(key: K, value: T) returns (ok: bool)
      requires Valid()
      modifies this
      ensures Valid()
      ensures ok == !HasKey(old(Entries()), key)
      ensures Entries() == if ok then old(Entries()) + [(key, value)] else old(Entries())
    {
      KeyLookup(key);
      if key in keyToSid {
        return false;
      }
      LinkLast(key, value);
      return true;
    }

    method LinkLast(key: K, value: T)
      requires Valid() && key !in keyToSid
      modifies this
      ensures Valid()
      ensures Entries() == old(Entries()) + [(key, value)]
    {
      hide Linked, Indexed, EntriesOf;
      if sids != [] {
        Neighbours(slab, sids, |sids| - 1);
      }
      var sid := VacantSlot(slab);
      Place(|sids|, sid, key, value);
      AppendByWrites(slab, sid, key, value, tail);
      slab := slab[sid := Node(key, value, None, None)];
      keyToSid := keyToSid[key := sid];
      match tail {
        case None =>
          head, tail := Some(sid), Some(sid);
        case Some(t) =>
          slab := slab[t := slab[t].(next := Some(sid))];
          slab := slab[sid := slab[sid].(prev := Some(t))];
          tail := Some(sid);
      }
      sids := InsertAt(sids, |sids|, sid);
    }

    method InsertBefore(before: K, key: K, value: T) returns (ok: bool)
      requires Valid()
      modifies this
      ensures Valid()
      ensures ok == (!HasKey(old(Entries()), key) && HasKey(old(Entries()), before))
      ensures Entries() == if ok then InsertAt(old(Entries()), IndexOf(old(Entries()), before), (key, value))
                           else old(Entries())
    {
      KeyLookup(key);
      KeyLookup(before);
      if key in keyToSid || before !in keyToSid {
        return false;
      }
      LinkBefore(keyToSid[before], key, value, IndexOf(Entries(), before));
      return true;
    }

    method LinkBefore(beforeSid: nat, key: K, value: T, ghost at: nat)
      requires Valid() && key !in keyToSid && at < |sids| && sids[at] == beforeSid
      modifies this
      ensures Valid()
      ensures Entries() == InsertAt(old(Entries()), at, (key, value))
    {
      hide Linked, Indexed, EntriesOf;
      Neighbours(slab, sids, at);
      var prev := slab[beforeSid].prev;
      var sid := VacantSlot(slab);
      Place(at, sid, key, value);
      SpliceByWrites(slab, sid, key, value, prev, Some(beforeSid));
      slab := slab[sid := Node(key, value, Some(beforeSid), prev)];
      keyToSid := keyToSid[key := sid];
      slab := slab[beforeSid := slab[beforeSid].(prev := Some(sid))];
      match prev {
        case Some(p) => slab := slab[p := slab[p].(next := Some(sid))];
        case None => head := Some(sid);
      }
      sids := InsertAt(sids, at, sid);
    }

    method IsEmpty() returns (b: bool)
      requires Valid()
      ensures b <==> Entries() == []
    {
      b := head.None?;
    }

    method HeadValue() returns (v: Option<T>)
      requires Valid()
      ensures v == if Entries() == [] then None else Some(Entries()[0].1)
    {
      v := if head.None? then None else Some(slab[head.value].value);
    }

    /** A write through the mutable reference to the head's value. */
    method SetHeadValue(value: T)
      requires Valid() && Entries() != []
      modifies this
      ensures Valid()
      ensures Entries() == old(Entries())[0 := (old(Entries())[0].0, value)]
    {
      RewrittenIsLinked(slab, sids, 0, value);
      slab := slab[head.value := slab[head.value].(value := value)];
    }

    method RemoveFront() returns (ok: bool)
      requires Valid()
      modifies this
      ensures Valid()
      ensures ok == (old(Entries()) != [])
      ensures Entries() == if ok then old(Entries())[1..] else []
    {
      if head.None? {
        return false;
      }
      var h := head.value;
      var node := slab[h];
      Drop(0);
      UnlinkByWrites(slab, h, None, node.next);
      slab := slab - {h};
      keyToSid := keyToSid - {node.key};
      match node.next {
        case None =>
          head, tail := None, None;
        case Some(n) =>
          head := Some(n);
          slab := slab[n := slab[n].(prev := None)];
      }
      sids := Without(sids, 0);
      return true;
    }

    method RemoveNode(key: K) returns (ok: bool)
      requires Valid()
      modifies this
      ensures Valid()
      ensures ok == HasKey(old(Entries()), key)
      ensures Entries() == if ok then Without(old(Entries()), IndexOf(old(Entries()), key)) else old(Entries())
    {
      KeyLookup(key);
      if key !in keyToSid {
        return false;
      }
      Unlink(keyToSid[key], IndexOf(Entries(), key));
      return true;
    }

    method Unlink(sid: nat, ghost at: nat)
      requires Valid() && at < |sids| && sids[at] == sid
      modifies this
      ensures Valid()
      ensures Entries() == Without(old(Entries()), at)
    {
      hide Linked, Indexed, EntriesOf;
      Drop(at);
      UnlinkByWrites(slab, sid, slab[sid].prev, slab[sid].next);
      keyToSid := keyToSid - {slab[sid].key};
      var prev, next := slab[sid].prev, slab[sid].next;
      slab := slab - {sid};
      match prev {
        case Some(p) => slab := slab[p := slab[p].(next := next)];
        case None => head := next;
      }
      match next {
        case Some(n) => slab := slab[n := slab[n].(prev := prev)];
        case None => tail := prev;
      }
      sids := Without(sids, at);
    }

    method NodeValue(key: K) returns (v: Option<T>)
      requires Valid()
      ensures v == if HasKey(Entries(), key) then Some(Entries()[IndexOf(Entries(), key)].1) else None
    {
      KeyLookup(key);
      v := if key in keyToSid then Some(slab[keyToSid[key]].value) else None;
    }

    /** A write through the mutable reference to a key's value. */
    method SetNodeValue(key: K, value: T)
      requires Valid() && HasKey(Entries(), key)
      modifies this
      ensures Valid()
      ensures Entries() == old(Entries())[IndexOf(old(Entries()), key) := (key, value)]
    {
      KeyLookup(key);
      ghost var at := IndexOf(Entries(), key);
      var sid := keyToSid[key];
      RewrittenIsLinked(slab, sids, at, value);
      slab := slab[sid := slab[sid].(value := value)];
    }

    method ToVec() returns (res: seq<T>)
      requires Valid()
      ensures res == Values(Entries())
    {
      res := [];
      var cur := head;
      while cur.Some?
        invariant |res| <= |sids| && cur == Link(sids, |res|)
        invariant res == Values(Entries())[..|res|]
        decreases |sids| - |res|
      {
        res := res + [slab[cur.value].value];
        cur := slab[cur.value].next;
      }
    }

    /** The backward walk from the tail yields the same values reversed. */
    method ToRevVec() returns (res: seq<T>)
      requires Valid()
      ensures res == Reversed(Values(Entries()))
    {
      res := [];
      var cur := tail;
      while cur.Some?
        invariant |res| <= |sids| && cur == Link(sids, |sids| - 1 - |res|)
        invariant res == Reversed(Values(Entries()))[..|res|]
        decreases |sids| - |res|
      {
        res := res + [slab[cur.value].value];
        cur := slab[cur.value].prev;
      }
    }

    method Fold<Acc>(init: Acc, f: (Acc, T) -> Acc) returns (acc: Acc)
      requires Valid()
      ensures acc == FoldLeft(init, Values(Entries()), f)
    {
      acc := init;
      var cur := head;
      ghost var vs, i := Values(Entries()), 0;
      while cur.Some?
        invariant 0 <= i <= |vs| && cur == Link(sids, i)
        invariant acc == FoldLeft(init, vs[..i], f)
        decreases |vs| - i
      {
        assert vs[..i + 1][..i] == vs[..i];
        acc := f(acc, slab[cur.value].value);
        cur := slab[cur.value].next;
        i := i + 1;
      }
      assert vs[..|vs|] == vs;
    }
  }
}
