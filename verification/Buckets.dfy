/**
 Rounding prices to significant figures. Bids round down and asks round up to a multiple of
 mantissa * 10^(digits - figures). `num_digits` is taken as the exact decimal length.
 */
module Buckets {
  import opened Prelude
  import opened Orders

  // ----- powers of ten and decimal length

  function Pow10(k: nat): (r: nat)
    ensures r >= 1
  {
    if k == 0 then 1 else 10 * Pow10(k - 1)
  }

  function NumDigits(px: nat): (d: nat)
    ensures d >= 1
    ensures px < Pow10(d) && (px > 0 ==> Pow10(d - 1) <= px)
  {
    if px < 10 then assert Pow10(0) == 1 && Pow10(1) == 10; 1 else 1 + NumDigits(px / 10)
  }

  lemma {:induction false} Pow10Monotone(j: nat, k: nat)
    requires j <= k
    ensures Pow10(j) <= Pow10(k)
    ensures j < k ==> 10 * Pow10(j) <= Pow10(k)
  {
    if j < k {
      Pow10Monotone(j, k - 1);
    }
  }

  lemma DigitsUnique(px: nat, d: nat)
    requires d >= 1 && Pow10(d - 1) <= px < Pow10(d)
    ensures NumDigits(px) == d
  {
    var e := NumDigits(px);
    if e < d {
      Pow10Monotone(e, d - 1);
    } else if d < e {
      Pow10Monotone(d, e - 1);
    }
  }

  // ----- multiples

  predicate Divides(a: nat, b: nat)
    requires a > 0
  {
    b % a == 0
  }

  lemma MultipleOf(a: nat, k: nat)
    requires a > 0
    ensures Divides(a, k * a) && (k * a) / a == k
  {
    DivUnique(k * a, a, k, 0);
  }

  lemma DivUnique(x: nat, a: nat, q: nat, r: nat)
    requires a > 0 && x == q * a + r && r < a
    ensures x / a == q && x % a == r
  {
    var q', r' := x / a, x % a;
    assert x == q' * a + r';
    TimesMonotone(q' + 1, q, a);
    TimesMonotone(q + 1, q', a);
  }

  lemma TimesMonotone(i: nat, j: nat, a: nat)
    ensures i <= j ==> i * a <= j * a
  {
  }

  lemma DividesTrans(a: nat, b: nat, c: nat)
    requires a > 0 && b > 0 && Divides(a, b) && Divides(b, c)
    ensures Divides(a, c)
  {
    var j, k := b / a, c / b;
    assert c == k * b && b == j * a;
    assert c == (k * j) * a by {
      assert k * (j * a) == (k * j) * a;
    }
    MultipleOf(a, k * j);
  }

  lemma {:induction false} Pow10Divides(j: nat, k: nat)
    requires j <= k
    ensures Divides(Pow10(j), Pow10(k))
  {
    if j == k {
      MultipleOf(Pow10(j), 1);
    } else {
      Pow10Divides(j, k - 1);
      MultipleOf(Pow10(k - 1), 10);
      DividesTrans(Pow10(j), Pow10(k - 1), Pow10(k));
    }
  }

  /** The largest multiple of inc that is at most px. */
  function Floor(px: nat, inc: nat): nat
    requires inc > 0
  {
    px / inc * inc
  }

  /** The smallest multiple of inc that is at least px. */
  function Ceil(px: nat, inc: nat): nat
    requires inc > 0
  {
    (px / inc + (if px % inc == 0 then 0 else 1)) * inc
  }

  lemma FloorFacts(px: nat, inc: nat)
    requires inc > 0
    ensures Floor(px, inc) <= px < Floor(px, inc) + inc && Divides(inc, Floor(px, inc))
  {
    MultipleOf(inc, px / inc);
    assert px == px / inc * inc + px % inc;
    assert px % inc < inc;
  }

  lemma CeilFacts(px: nat, inc: nat)
    requires inc > 0
    ensures px <= Ceil(px, inc) < px + inc && Divides(inc, Ceil(px, inc))
  {
    var k := px / inc + (if px % inc == 0 then 0 else 1);
    MultipleOf(inc, k);
    assert px == px / inc * inc + px % inc;
    assert k * inc == px / inc * inc + (if px % inc == 0 then 0 else inc);
  }

  /** Two multiples of inc less than inc apart are equal. */
  lemma MultiplesApart(x: nat, y: nat, inc: nat)
    requires inc > 0 && Divides(inc, x) && Divides(inc, y) && x < y
    ensures x + inc <= y
  {
    var j, k := x / inc, y / inc;
    assert x == j * inc && y == k * inc;
    TimesMonotone(k, j, inc);
    TimesMonotone(j + 1, k, inc);
  }

  lemma FloorGreatest(px: nat, inc: nat, x: nat)
    requires inc > 0 && Divides(inc, x) && x <= px
    ensures x <= Floor(px, inc)
  {
    FloorFacts(px, inc);
    if Floor(px, inc) < x {
      MultiplesApart(Floor(px, inc), x, inc);
    }
  }

  lemma CeilLeast(px: nat, inc: nat, x: nat)
    requires inc > 0 && Divides(inc, x) && px <= x
    ensures Ceil(px, inc) <= x
  {
    CeilFacts(px, inc);
    if x < Ceil(px, inc) {
      MultiplesApart(x, Ceil(px, inc), inc);
    }
  }

  // ----- buckets

  datatype Precision = Precision(figs: Option<nat>, mantissa: Option<nat>)

  function Mantissa(p: Precision): nat {
    if p.mantissa.Some? then p.mantissa.value else 1
  }

  /** Figures to keep are unrestricted or at least two, and the mantissa is 1, 2 or 5. */
  predicate Supported(p: Precision) {
    p.figs.Some? ==> p.figs.value >= 2 && Mantissa(p) in {1, 2, 5}
  }

  /** The rounding step for prices of d digits. */
  function Step(p: Precision, d: nat): nat
    requires p.figs.Some?
  {
    Mantissa(p) * Pow10(if d > p.figs.value then d - p.figs.value else 0)
  }

  /** Rounding with a zero mantissa would divide by zero; callers only pass absent, 2 or 5. */
  function Bucket(px: nat, side: Side, p: Precision): nat
    requires p.figs.Some? ==> Mantissa(p) > 0
  {
    if p.figs.None? then px
    else
      var inc := Step(p, NumDigits(px));
      match side
      case Ask => Ceil(px, inc)
      case Bid => Floor(px, inc)
  }

  /** The step divides 10^d and, from two digits on, 10^(d-1): buckets never straddle a power of ten. */
  lemma StepDividesPowers(p: Precision, d: nat)
    requires Supported(p) && p.figs.Some? && d >= 1
    ensures Step(p, d) > 0
    ensures Divides(Step(p, d), Pow10(d))
    ensures d >= 2 ==> Divides(Step(p, d), Pow10(d - 1))
  {
    var e := if d > p.figs.value then d - p.figs.value else 0;
    var m, k := Mantissa(p), 10 / Mantissa(p);
    assert k * m == 10;
    assert Pow10(e + 1) == k * (m * Pow10(e)) by {
      assert k * (m * Pow10(e)) == (k * m) * Pow10(e);
    }
    MultipleOf(m * Pow10(e), k);
    Pow10Divides(e + 1, d);
    DividesTrans(Step(p, d), Pow10(e + 1), Pow10(d));
    if d >= 2 {
      Pow10Divides(e + 1, d - 1);
      DividesTrans(Step(p, d), Pow10(e + 1), Pow10(d - 1));
    }
  }

  lemma SingleDigit(x: nat)
    ensures NumDigits(x) == 1 <==> x < 10
  {
    assert Pow10(0) == 1 && Pow10(1) == 10;
    Pow10Monotone(1, NumDigits(x));
  }

  /** A bid keeps its digit count; an ask stays within 10^d. */
  lemma BucketRange(px: nat, side: Side, p: Precision)
    requires Supported(p)
    ensures side.Bid? && p.figs.Some? ==> Bucket(px, side, p) <= px && NumDigits(Bucket(px, side, p)) == NumDigits(px)
    ensures side.Ask? && p.figs.Some? ==> px <= Bucket(px, side, p) <= Pow10(NumDigits(px))
  {
    hide Pow10, NumDigits, Floor, Ceil, Divides;
    if p.figs.Some? {
      var d := NumDigits(px);
      StepDividesPowers(p, d);
      var inc := Step(p, d);
      hide Step, Mantissa;
      if side.Ask? {
        CeilFacts(px, inc);
        CeilLeast(px, inc, Pow10(d));
      } else {
        FloorFacts(px, inc);
        SingleDigit(px);
        if d >= 2 {
          FloorGreatest(px, inc, Pow10(d - 1));
          DigitsUnique(Floor(px, inc), d);
        } else {
          SingleDigit(Floor(px, inc));
        }
      }
    }
  }

  /**
   A price of d digits is rounded to the nearest multiple of m * 10^(d - n), downwards for a bid
   and upwards for an ask, where n figures are kept and m is the mantissa; with no more than n
   digits, to a multiple of m.
   */
  lemma BucketExact(px: nat, side: Side, p: Precision, d: nat, x: nat)
    requires Supported(p) && p.figs.Some?
    requires (d == 1 && px < 10) || (d > 1 && Pow10(d - 1) <= px < Pow10(d))
    ensures var m := if p.mantissa.Some? then p.mantissa.value else 1;
            var step := m * Pow10(if d <= p.figs.value then 0 else d - p.figs.value);
            && step > 0 && Divides(step, Bucket(px, side, p))
            && (side == Bid ==> Bucket(px, side, p) <= px && (Divides(step, x) && x <= px ==> x <= Bucket(px, side, p)))
            && (side == Ask ==> px <= Bucket(px, side, p) && (Divides(step, x) && px <= x ==> Bucket(px, side, p) <= x))
  {
    if d == 1 {
      SingleDigit(px);
    } else {
      DigitsUnique(px, d);
    }
    hide Pow10, NumDigits, Floor, Ceil, Divides;
    var step := Step(p, d);
    StepDividesPowers(p, d);
    FloorFacts(px, step);
    CeilFacts(px, step);
    if side.Bid? && Divides(step, x) && x <= px {
      FloorGreatest(px, step, x);
    }
    if side.Ask? && Divides(step, x) && px <= x {
      CeilLeast(px, step, x);
    }
  }

  /** Prices of up to 19 digits cannot overflow the source's 64-bit integers, neither when rounded nor in the step. */
  lemma BucketFitsU64(px: nat, side: Side, p: Precision)
    requires Supported(p) && px < 10_000_000_000_000_000_000
    ensures Bucket(px, side, p) < 0x1_0000_0000_0000_0000
    ensures p.figs.Some? ==> Step(p, NumDigits(px)) < 0x1_0000_0000_0000_0000
  {
    BucketRange(px, side, p);
    assert Pow10(4) == 10_000;
    assert Pow10(9) == 1_000_000_000;
    assert Pow10(14) == 100_000_000_000_000;
    assert Pow10(19) == 10_000_000_000_000_000_000;
    var d := NumDigits(px);
    if d > 19 {
      Pow10Monotone(19, d - 1);
    } else {
      Pow10Monotone(d, 19);
      if p.figs.Some? {
        StepBounded(p, d);
      }
    }
  }

  lemma StepBounded(p: Precision, d: nat)
    requires Supported(p) && p.figs.Some? && d <= 19
    ensures Step(p, d) <= 5 * Pow10(17)
    ensures 5 * Pow10(17) < 0x1_0000_0000_0000_0000
  {
    var k := if d > p.figs.value then d - p.figs.value else 0;
    Pow10Monotone(k, 17);
    assert Pow10(4) == 10_000;
    assert Pow10(8) == 100_000_000;
    assert Pow10(12) == 1_000_000_000_000;
    assert Pow10(17) == 100_000_000_000_000_000;
  }

  lemma PowerDigits(d: nat)
    ensures NumDigits(Pow10(d)) == d + 1
  {
    assert Pow10(d + 1) == 10 * Pow10(d);
    hide Pow10, NumDigits;
    DigitsUnique(Pow10(d), d + 1);
  }

  /** Exact powers of ten are bucket prices at any precision. */
  lemma PowerIsBucket(d: nat, side: Side, p: Precision)
    requires Supported(p) && d >= 1
    ensures Bucket(Pow10(d), side, p) == Pow10(d)
  {
    hide NumDigits, Floor, Ceil, Divides, Pow10, Mantissa, Step;
    if p.figs.Some? {
      PowerDigits(d);
      StepDividesPowers(p, d + 1);
      Fixed(Pow10(d), Step(p, d + 1));
    }
  }

  lemma Fixed(x: nat, inc: nat)
    requires inc > 0 && Divides(inc, x)
    ensures Floor(x, inc) == x && Ceil(x, inc) == x
  {
    FloorGreatest(x, inc, x);
    FloorFacts(x, inc);
    CeilLeast(x, inc, x);
    CeilFacts(x, inc);
  }

  /** Step of the coarser precision is a multiple of the finer one's at this digit count. */
  predicate Nests(fine: Precision, coarse: Precision, d: nat)
  {
    fine.figs.Some? && coarse.figs.Some? ==> Step(fine, d) > 0 && Divides(Step(fine, d), Step(coarse, d))
  }

  /** Rounding first to a finer, nesting precision does not change the coarser bucket. */
  lemma BucketNested(px: nat, side: Side, fine: Precision, coarse: Precision)
    requires Supported(fine) && Supported(coarse) && coarse.figs.Some?
    requires Nests(fine, coarse, NumDigits(px))
    ensures Bucket(Bucket(px, side, fine), side, coarse) == Bucket(px, side, coarse)
  {
    hide Pow10, NumDigits, Floor, Ceil, Divides, Step, Mantissa;
    if fine.figs.Some? {
      var d := NumDigits(px);
      var i, j := Step(fine, d), Step(coarse, d);
      var x := Bucket(px, side, fine);
      BucketRange(px, side, fine);
      BucketRange(px, side, coarse);
      StepDividesPowers(fine, d);
      StepDividesPowers(coarse, d);
      if side.Bid? {
        FloorNested(px, i, j);
      } else {
        CeilNested(px, i, j);
        if x == Pow10(d) {
          PowerIsBucket(d, side, coarse);
          Fixed(Pow10(d), j);
        } else if px > 0 {
          DigitsUnique(x, d);
        } else {
          Fixed(0, i);
        }
      }
    }
  }

  lemma FloorNested(px: nat, i: nat, j: nat)
    requires i > 0 && j > 0 && Divides(i, j)
    ensures Floor(Floor(px, i), j) == Floor(px, j)
  {
    FloorFacts(px, i);
    FloorFacts(px, j);
    FloorFacts(Floor(px, i), j);
    DividesTrans(i, j, Floor(px, j));
    FloorGreatest(px, i, Floor(px, j));
    FloorGreatest(Floor(px, i), j, Floor(px, j));
    FloorGreatest(px, j, Floor(Floor(px, i), j));
  }

  lemma CeilNested(px: nat, i: nat, j: nat)
    requires i > 0 && j > 0 && Divides(i, j)
    ensures Ceil(Ceil(px, i), j) == Ceil(px, j)
  {
    CeilFacts(px, i);
    CeilFacts(px, j);
    CeilFacts(Ceil(px, i), j);
    DividesTrans(i, j, Ceil(px, j));
    CeilLeast(px, i, Ceil(px, j));
    CeilLeast(Ceil(px, i), j, Ceil(px, j));
    CeilLeast(px, j, Ceil(Ceil(px, i), j));
  }

  lemma BucketIdempotent(px: nat, side: Side, p: Precision)
    requires Supported(p)
    ensures Bucket(Bucket(px, side, p), side, p) == Bucket(px, side, p)
  {
    if p.figs.Some? {
      StepDividesPowers(p, NumDigits(px));
      MultipleOf(Step(p, NumDigits(px)), 1);
      BucketNested(px, side, p, p);
    }
  }

  lemma FloorCeilMonotone(x: nat, y: nat, inc: nat)
    requires inc > 0 && x <= y
    ensures Floor(x, inc) <= Floor(y, inc) && Ceil(x, inc) <= Ceil(y, inc)
  {
    FloorFacts(x, inc);
    FloorGreatest(y, inc, Floor(x, inc));
    CeilFacts(y, inc);
    CeilLeast(x, inc, Ceil(y, inc));
  }

  lemma {:induction false} DigitsMonotone(x: nat, y: nat)
    requires x <= y
    ensures NumDigits(x) <= NumDigits(y)
  {
    if x >= 10 {
      DigitsMonotone(x / 10, y / 10);
    }
  }

  lemma BucketMonotone(x: nat, y: nat, side: Side, p: Precision)
    requires Supported(p) && x <= y
    ensures Bucket(x, side, p) <= Bucket(y, side, p)
  {
    hide Pow10, NumDigits, Floor, Ceil, Divides, Mantissa;
    if p.figs.Some? {
      var d, e := NumDigits(x), NumDigits(y);
      DigitsMonotone(x, y);
      BucketRange(x, side, p);
      BucketRange(y, side, p);
      StepDividesPowers(p, d);
      if d == e {
        FloorCeilMonotone(x, y, Step(p, d));
      } else {
        Pow10Monotone(d, e - 1);
        if side.Bid? && y > 0 {
          StepDividesPowers(p, e);
          FloorGreatest(y, Step(p, e), Pow10(e - 1));
        }
      }
    }
  }

  /** Past the kept figures the rounding error is below mantissa * 10^(1 - figures) of the price. */
  lemma BucketError(px: nat, side: Side, p: Precision)
    requires Supported(p) && p.figs.Some? && NumDigits(px) > p.figs.value
    ensures var b, n := Bucket(px, side, p), p.figs.value;
            var error := if b < px then px - b else b - px;
            error * Pow10(n - 1) < Mantissa(p) * px
  {
    hide Pow10, NumDigits, Floor, Ceil, Divides, Mantissa;
    var d, n := NumDigits(px), p.figs.value;
    StepDividesPowers(p, d);
    FloorFacts(px, Step(p, d));
    CeilFacts(px, Step(p, d));
    var b := Bucket(px, side, p);
    var error := if b < px then px - b else b - px;
    assert error < Step(p, d);
    Pow10Sum(d - n, n - 1);
    SingleDigit(px);
    ScaledBelow(error, Mantissa(p), Pow10(d - n), Pow10(n - 1), px);
  }

  lemma ScaledBelow(error: nat, m: nat, u: nat, v: nat, px: nat)
    requires error < m * u && v > 0 && u * v <= px
    ensures error * v < m * px
  {
    TimesMonotone(error + 1, m * u, v);
    assert (m * u) * v == m * (u * v);
    TimesMonotone(u * v, px, m);
  }

  lemma {:induction false} Pow10Sum(j: nat, k: nat)
    ensures Pow10(j) * Pow10(k) == Pow10(j + k)
  {
    if j > 0 {
      Pow10Sum(j - 1, k);
      var a, b := Pow10(j - 1), Pow10(k);
      assert Pow10(j) == 10 * a && Pow10(j + k) == 10 * Pow10(j - 1 + k);
      hide Pow10;
      assert (10 * a) * b == 10 * (a * b);
    }
  }
}
