/** Orders, sides and price priority. Prices and sizes are the scaled integers of the source. */
module Orders {
  import opened Prelude

  datatype Side = Ask | Bid

  /** `detail` stands for the remaining fields, which no operation reads or writes. */
  datatype Order = Order(
    coin: string, oid: nat, side: Side, px: nat, sz: nat, timestamp: nat,
    isTrigger: bool, triggerPx: string, triggerCondition: string, tif: Option<string>, detail: string)

  /** Price p ranks strictly ahead of price q on the given side of the book. */
  predicate Better(side: Side, p: nat, q: nat) {
    match side
    case Ask => p < q
    case Bid => p > q
  }

  /** A taker with the given limit accepts a maker at price px. */
  predicate Crosses(taker: Side, limit: nat, px: nat) {
    match taker
    case Ask => px >= limit
    case Bid => px <= limit
  }

  function Opposite(side: Side): Side {
    if side.Ask? then Bid else Ask
  }

  /** Trigger orders enter the book as plain Gtc orders stamped with the time of activation. */
  function ConvertTrigger(o: Order, ts: nat): Order {
    if o.isTrigger
    then o.(triggerPx := "0.0", triggerCondition := "Triggered", isTrigger := false, timestamp := ts,
            tif := Some("Gtc"))
    else o
  }

  function Total(s: seq<Order>): nat {
    if s == [] then 0 else s[0].sz + Total(s[1..])
  }

  lemma {:induction false} TotalConcat(s: seq<Order>, t: seq<Order>)
    ensures Total(s + t) == Total(s) + Total(t)
  {
    if s == [] {
      assert s + t == t;
    } else {
      assert (s + t)[1..] == s[1..] + t;
      TotalConcat(s[1..], t);
    }
  }

  function Oids(s: seq<Order>): (r: seq<nat>)
    ensures |r| == |s|
    ensures forall i {:trigger r[i]} :: 0 <= i < |s| ==> r[i] == s[i].oid
  {
    seq(|s|, i requires 0 <= i < |s| => s[i].oid)
  }

  function OidSet(s: seq<Order>): (r: set<nat>)
    ensures forall i :: 0 <= i < |s| ==> s[i].oid in r
  {
    set i | 0 <= i < |s| :: s[i].oid
  }

  /** Every order is on its own side, and no order is behind one of strictly worse price. */
  ghost predicate Sorted(s: seq<Order>, side: Side) {
    && (forall i :: 0 <= i < |s| ==> s[i].side == side)
    && (forall i, j :: 0 <= i < j < |s| ==> !Better(side, s[j].px, s[i].px))
  }
}
