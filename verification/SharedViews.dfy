/**
 View maps shared by reference count. The listener extends its own map in place only while nobody
 else holds it; otherwise it goes on with a copy, so a published map is never altered.
 */
module SharedViews {
  import opened Prelude
  import opened BookState
  import opened WireCache

  class SharedMaps {
    var cells: Memory
    var holders: map<nat, nat>

    ghost predicate Valid()
      reads this
    {
      holders.Keys == cells.Keys && forall a :: a in holders ==> holders[a] >= 1
    }

    constructor ()
      ensures Valid() && cells == map[]
    {
      cells, holders := map[], map[];
    }

    /** Any address that is not in use. */
    method Allocate(views: ViewMap) returns (addr: nat)
      requires Valid()
      modifies this
      ensures Valid() && addr !in old(cells)
      ensures cells == old(cells)[addr := views] && holders == old(holders)[addr := 1]
    {
      FreeAddress(cells.Keys);
      addr :| addr !in cells;
      cells, holders := cells[addr := views], holders[addr := 1];
    }

    method Share(addr: nat)
      requires Valid() && addr in cells
      modifies this
      ensures Valid() && cells == old(cells) && holders == old(holders)[addr := old(holders)[addr] + 1]
    {
      holders := holders[addr := holders[addr] + 1];
    }

    /** The last holder frees the map, whose address may then be used again. */
    method Release(addr: nat)
      requires Valid() && addr in cells
      modifies this
      ensures Valid()
      ensures old(holders)[addr] > 1 ==> cells == old(cells) && holders == old(holders)[addr := old(holders)[addr] - 1]
      ensures old(holders)[addr] == 1 ==> cells == old(cells) - {addr} && holders == old(holders) - {addr}
    {
      if holders[addr] > 1 {
        holders := holders[addr := holders[addr] - 1];
      } else {
        cells, holders := cells - {addr}, holders - {addr};
      }
    }

    /** The holder of addr extends what it sees; every map that anybody else holds stays as it was. */
    method Extend(addr: nat, more: ViewMap) returns (addr': nat)
      requires Valid() && addr in cells
      modifies this
      ensures Valid() && addr' in cells && cells[addr'] == old(cells)[addr] + more
      ensures forall a :: a in old(cells) && (a != addr || old(holders)[a] > 1) ==>
                a in cells && cells[a] == old(cells)[a]
      ensures addr' != addr <==> old(holders)[addr] > 1
    {
      if holders[addr] == 1 {
        cells := cells[addr := cells[addr] + more];
        return addr;
      }
      var copy := cells[addr] + more;
      Release(addr);
      addr' := Allocate(copy);
    }
  }

  lemma FreeAddress(used: set<nat>)
    ensures exists a: nat :: a !in used
  {
    var n := Above(used);
    assert n !in used;
  }

  lemma {:induction false} Above(used: set<nat>) returns (n: nat)
    ensures forall a :: a in used ==> a < n
  {
    if used == {} {
      n := 0;
    } else {
      var a :| a in used;
      var m := Above(used - {a});
      n := if a < m then m else a + 1;
      assert forall b :: b in used ==> b == a || b in used - {a};
    }
  }

  /** Publishing hands out the map itself; a later refresh leaves the published one as it was. */
  method PublishThenRefresh(maps: SharedMaps, addr: nat, more: ViewMap) returns (addr': nat)
    requires maps.Valid() && addr in maps.cells
    modifies maps
    ensures maps.Valid() && addr' in maps.cells && maps.cells[addr'] == old(maps.cells)[addr] + more
    ensures addr' != addr && forall a :: a in old(maps.cells) ==> a in maps.cells && maps.cells[a] == old(maps.cells)[a]
  {
    maps.Share(addr);
    addr' := maps.Extend(addr, more);
  }

  /** A refresh by the listener leaves every cached frame right, since the cache holds the map it encoded. */
  method RefreshBesideCache(maps: SharedMaps, cache: BookWireCache, addr: nat, more: ViewMap) returns (addr': nat)
    requires maps.Valid() && addr in maps.cells && cache.Valid(maps.cells)
    requires cache.source == Some(addr) ==> maps.holders[addr] > 1
    modifies maps
    ensures maps.Valid() && addr' in maps.cells && maps.cells[addr'] == old(maps.cells)[addr] + more
    ensures cache.Valid(maps.cells)
  {
    hide Encoded, Bytes;
    ghost var mem := maps.cells;
    addr' := maps.Extend(addr, more);
    cache.RetainedMemory(mem, maps.cells);
  }
}
