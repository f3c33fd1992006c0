/**
 Untriggered trigger orders stand at the end of both sides of a node snapshot. Loading takes off
 exactly the trailing orders whose oids both sides list, so a book's snapshot with triggers
 appended still rebuilds that book.
 */
module TriggerRemoval {
  import opened Orders
  import opened FlatBook
  import opened Snapshots

  ghost predicate ListsOid(s: seq<Order>, oid: nat) {
    exists i :: 0 <= i < |s| && s[i].oid == oid
  }

  /** kept is s without its trailing orders that the other side lists too: all of those, and no more. */
  ghost predicate TailOff(s: seq<Order>, other: seq<Order>, kept: seq<Order>) {
    && kept <= s
    && (forall i :: |kept| <= i < |s| ==> ListsOid(other, s[i].oid))
    && (kept != [] ==> !ListsOid(other, kept[|kept| - 1].oid))
  }

  lemma {:induction false} TrimTailOff(s: seq<Order>, full: seq<Order>, other: seq<Order>)
    requires s <= full && forall i :: |s| <= i < |full| ==> ListsOid(other, full[i].oid)
    ensures TailOff(full, other, TrimTail(s, OidSet(full) * OidSet(other)))
  {
    hide ListsOid;
    if s != [] {
      var o := s[|s| - 1];
      assert full[|s| - 1] == o && o.oid in OidSet(full);
      OidSetLists(other, o.oid);
      if o.oid in OidSet(other) {
        TrimTailOff(s[..|s| - 1], full, other);
      }
    }
  }

  lemma OidSetLists(s: seq<Order>, oid: nat)
    ensures oid in OidSet(s) <==> ListsOid(s, oid)
  {
  }

  /** Both sides lose their trailing common orders, judged by the sides as they were. */
  lemma TriggersRemoved(s: Snapshot)
    ensures var r := RemoveTriggers(s); TailOff(s.bids, s.asks, r.bids) && TailOff(s.asks, s.bids, r.asks)
  {
    hide TailOff, TrimTail;
    TrimTailOff(s.bids, s.bids, s.asks);
    TrimTailOff(s.asks, s.asks, s.bids);
    assert OidSet(s.asks) * OidSet(s.bids) == OidSet(s.bids) * OidSet(s.asks);
  }

  /** Only one sequence is s with that tail off. */
  lemma TailOffUnique(s: seq<Order>, other: seq<Order>, kept: seq<Order>, kept': seq<Order>)
    requires TailOff(s, other, kept) && TailOff(s, other, kept')
    ensures kept == kept'
  {
    hide ListsOid;
  }

  /** The same oids on both sides, none of which the book has. */
  ghost predicate FreshTriggers(b: Book, ts: seq<Order>, us: seq<Order>) {
    && (forall i :: 0 <= i < |ts| ==> ListsOid(us, ts[i].oid))
    && (forall i :: 0 <= i < |us| ==> ListsOid(ts, us[i].oid))
    && (forall i :: 0 <= i < |ts| ==> !ListsOid(b.bids, ts[i].oid) && !ListsOid(b.asks, ts[i].oid))
    && (forall i :: 0 <= i < |us| ==> !ListsOid(b.bids, us[i].oid) && !ListsOid(b.asks, us[i].oid))
  }

  lemma ListsConcat(s: seq<Order>, t: seq<Order>, oid: nat)
    ensures ListsOid(s + t, oid) <==> ListsOid(s, oid) || ListsOid(t, oid)
  {
    if i :| 0 <= i < |s| && s[i].oid == oid {
      assert (s + t)[i].oid == oid;
    }
    if i :| 0 <= i < |t| && t[i].oid == oid {
      assert (s + t)[|s| + i].oid == oid;
    }
    if i :| 0 <= i < |s + t| && (s + t)[i].oid == oid {
      assert if i < |s| then s[i].oid == oid else t[i - |s|].oid == oid;
    }
  }

  /** One side with triggers appended, beside the other. */
  lemma TriggersOff(s: seq<Order>, other: seq<Order>, ts: seq<Order>, us: seq<Order>)
    requires forall i :: 0 <= i < |ts| ==> ListsOid(us, ts[i].oid)
    requires forall i :: 0 <= i < |us| ==> !ListsOid(s, us[i].oid)
    requires forall i :: 0 <= i < |s| ==> !ListsOid(other, s[i].oid)
    ensures TailOff(s + ts, other + us, s)
  {
    forall i | |s| <= i < |s + ts| ensures ListsOid(other + us, (s + ts)[i].oid) {
      assert (s + ts)[i] == ts[i - |s|];
      ListsConcat(other, us, (s + ts)[i].oid);
    }
    if s != [] {
      var o := s[|s| - 1];
      ListsConcat(other, us, o.oid);
      forall j | 0 <= j < |us| ensures us[j].oid != o.oid {
        assert !ListsOid(s, us[j].oid);
      }
    }
  }

  lemma SidesDiffer(b: Book)
    requires WellFormed(b)
    ensures forall i :: 0 <= i < |b.bids| ==> !ListsOid(b.asks, b.bids[i].oid)
    ensures forall i :: 0 <= i < |b.asks| ==> !ListsOid(b.bids, b.asks[i].oid)
  {
    OidsUniqueInBook(b);
    hide WellFormed;
  }

  /**
   Loading the snapshot of an exact book of positive sizes gives back that book, whatever triggers
   follow on both sides.
   */
  lemma RebuildIgnoresTriggers(b: Book, ts: seq<Order>, us: seq<Order>)
    requires WellFormed(b) && AllPositive(b) && FreshTriggers(b, ts, us)
    ensures FromSnapshot(Snapshot(b.bids + ts, b.asks + us), true) == b
  {
    hide *;
    var s := Snapshot(b.bids + ts, b.asks + us);
    SameAfterRemoval(b, ts, us);
    RebuiltAlike(s, ToSnapshot(b));
    RoundTripIff(b);
  }

  lemma SameAfterRemoval(b: Book, ts: seq<Order>, us: seq<Order>)
    requires WellFormed(b) && FreshTriggers(b, ts, us)
    ensures RemoveTriggers(Snapshot(b.bids + ts, b.asks + us)) == RemoveTriggers(ToSnapshot(b))
  {
    hide WellFormed, ListsOid, TailOff, RemoveTriggers;
    SidesDiffer(b);
    TriggersOff(b.bids, b.asks, ts, us);
    TriggersOff(b.asks, b.bids, us, ts);
    NoTriggersOff(b.bids, b.asks);
    NoTriggersOff(b.asks, b.bids);
    RemovedTo(Snapshot(b.bids + ts, b.asks + us), b.bids, b.asks);
    RemovedTo(ToSnapshot(b), b.bids, b.asks);
  }

  lemma NoTriggersOff(s: seq<Order>, other: seq<Order>)
    requires forall i :: 0 <= i < |s| ==> !ListsOid(other, s[i].oid)
    ensures TailOff(s, other, s)
  {
    hide ListsOid;
  }

  lemma RemovedTo(s: Snapshot, bids: seq<Order>, asks: seq<Order>)
    requires TailOff(s.bids, s.asks, bids) && TailOff(s.asks, s.bids, asks)
    ensures RemoveTriggers(s) == Snapshot(bids, asks)
  {
    hide *;
    TriggersRemoved(s);
    TailOffUnique(s.bids, s.asks, RemoveTriggers(s).bids, bids);
    TailOffUnique(s.asks, s.bids, RemoveTriggers(s).asks, asks);
  }

  lemma RebuiltAlike(s: Snapshot, t: Snapshot)
    requires RemoveTriggers(s) == RemoveTriggers(t)
    ensures FromSnapshot(s, true) == FromSnapshot(t, true)
  {
    hide AddAll, RemoveTriggers;
  }
}
