// Decimal(12,2) columns as whole cents, inputs as exact reals.
module Money {

  function Cents(x: real): real { 100.0 * x }

  /** toFixed(2), and a numeric column of scale 2: nearest cent, halves away from zero. */
  function RoundCents(x: real): int {
    if x >= 0.0 then (Cents(x) + 0.5).Floor else -(0.5 - Cents(x)).Floor
  }

  /** Number(column) */
  function Units(cents: int): real { cents as real / 100.0 }

  function Max(a: int, b: int): int { if a < b then b else a }

  function Abs(a: int): int { if a < 0 then -a else a }

  /** computeTotal: Math.max(0, Number((amount * quantity - discount + shippingFee).toFixed(2))) */
  function ComputeTotal(amount: real, quantity: int, discount: real, shippingFee: real): int {
    Max(0, RoundCents(amount * quantity as real - discount + shippingFee))
  }

  /** The same formula evaluated on stored cents. */
  function Formula(amount: int, quantity: int, discount: int, shippingFee: int): int {
    Max(0, amount * quantity - discount + shippingFee)
  }

  predicate WithinHalfCent(cents: int, x: real) { -0.5 <= cents as real - Cents(x) <= 0.5 }

  lemma RoundCentsIsNearest(x: real)
    ensures WithinHalfCent(RoundCents(x), x)
  {
  }

  /** A half cent is rounded up, and below zero as above it, so always away from zero. */
  lemma RoundsHalvesAway(x: real, c: nat)
    ensures RoundCents(-x) == -RoundCents(x)
    ensures RoundCents((c as real + 0.5) / 100.0) == c + 1
  {
    assert Cents((c as real + 0.5) / 100.0) == c as real + 0.5;
  }

  lemma RoundCentsExact(c: int)
    ensures RoundCents(Units(c)) == c
  {
    assert Cents(Units(c)) == c as real;
  }

  lemma ProductNonNegative(x: real, y: real)
    requires x >= 0.0 && y >= 0.0
    ensures x * y >= 0.0
  {
  }

  lemma ScaledError(e: real, q: int)
    requires -0.5 <= e <= 0.5
    ensures -0.5 * Abs(q) as real <= e * q as real <= 0.5 * Abs(q) as real
  {
    var r := Abs(q) as real;
    ProductNonNegative(0.5 - e, r);
    ProductNonNegative(0.5 + e, r);
    assert (0.5 - e) * r == 0.5 * r - e * r && (0.5 + e) * r == 0.5 * r + e * r;
    if q < 0 { assert q as real == -r && e * q as real == -(e * r); }
  }

  /** The four rounding errors add up, that of the amount `quantity` times over. */
  lemma DriftIsSumOfErrors(amount: real, quantity: int, discount: real, shippingFee: real,
                           a: int, d: int, s: int, total: int) returns (scaled: real)
    requires WithinHalfCent(a, amount)
    ensures -0.5 * Abs(quantity) as real <= scaled <= 0.5 * Abs(quantity) as real
    ensures (a * quantity - d + s - total) as real
            == scaled - (d as real - Cents(discount)) + (s as real - Cents(shippingFee))
               - (total as real - Cents(amount * quantity as real - discount + shippingFee))
  {
    var q := quantity as real;
    scaled := (a as real - Cents(amount)) * q;
    ScaledError(a as real - Cents(amount), quantity);
    assert Cents(amount * q) == Cents(amount) * q;
    assert (a * quantity) as real == a as real * q;
    assert scaled == a as real * q - Cents(amount) * q;
  }

  /**
   * Rounding drift: whatever the rounding, as long as it errs by at most half a cent, the rounded
   * total is within (|quantity| + 3)/2 cents of the formula on the rounded fields.
   */
  lemma DriftBound(amount: real, quantity: int, discount: real, shippingFee: real,
                   a: int, d: int, s: int, total: int)
    requires WithinHalfCent(a, amount) && WithinHalfCent(d, discount) && WithinHalfCent(s, shippingFee)
    requires WithinHalfCent(total, amount * quantity as real - discount + shippingFee)
    ensures 2 * Abs(Max(0, total) - Formula(a, quantity, d, s)) <= Abs(quantity) + 3
  {
    var scaled := DriftIsSumOfErrors(amount, quantity, discount, shippingFee, a, d, s, total);
    var x := amount * quantity as real - discount + shippingFee;
    WideGap(scaled, d as real - Cents(discount), s as real - Cents(shippingFee), total as real - Cents(x),
            Abs(quantity), a * quantity - d + s - total);
    ClampShrinks(total, a * quantity - d + s);
  }

  lemma ClampShrinks(t: int, f: int)
    ensures Abs(Max(0, t) - Max(0, f)) <= Abs(t - f)
  {
  }

  lemma WideGap(scaled: real, eD: real, eS: real, eT: real, quantity: nat, gap: int)
    requires -0.5 * quantity as real <= scaled <= 0.5 * quantity as real
    requires -0.5 <= eD <= 0.5 && -0.5 <= eS <= 0.5 && -0.5 <= eT <= 0.5
    requires gap as real == scaled - eD + eS - eT
    ensures 2 * Abs(gap) <= quantity + 3
  {
    assert (2 * gap) as real == 2.0 * gap as real;
    assert -((quantity + 3) as real) <= (2 * gap) as real <= (quantity + 3) as real;
  }

  /** Half the quantity, rounded down, plus one: the most cents a total can drift for what the DTOs admit. */
  lemma SharpDriftBound(amount: real, quantity: int, discount: real, shippingFee: real)
    requires amount >= 0.0 && discount >= 0.0 && shippingFee >= 0.0 && quantity >= 1
    ensures Abs(ComputeTotal(amount, quantity, discount, shippingFee)
                - Formula(RoundCents(amount), quantity, RoundCents(discount), RoundCents(shippingFee)))
            <= quantity / 2 + 1
  {
    var a, d, s := RoundCents(amount), RoundCents(discount), RoundCents(shippingFee);
    var x := amount * quantity as real - discount + shippingFee;
    RoundsHalfUp(amount);
    RoundsHalfUp(discount);
    RoundsHalfUp(shippingFee);
    RoundsHalfUp(x);
    hide RoundCents, Cents;
    var total := (Cents(x) + 0.5).Floor;
    assert ComputeTotal(amount, quantity, discount, shippingFee) == Max(0, total);
    assert Formula(a, quantity, d, s) == Max(0, a * quantity - d + s);
    ClampShrinks(total, a * quantity - d + s);
    var scaled := DriftIsSumOfErrors(amount, quantity, discount, shippingFee, a, d, s, total);
    StrictGap(scaled, d as real - Cents(discount), s as real - Cents(shippingFee), total as real - Cents(x),
              quantity, a * quantity - d + s - total);
  }

  /** Clamped at zero this is rounding half up, even of a negative x; so every error lies in (-1/2, 1/2]. */
  lemma RoundsHalfUp(x: real)
    ensures Max(0, RoundCents(x)) == Max(0, (Cents(x) + 0.5).Floor)
    ensures -0.5 < (Cents(x) + 0.5).Floor as real - Cents(x) <= 0.5
    ensures x >= 0.0 ==> -0.5 < RoundCents(x) as real - Cents(x) <= 0.5
  {
  }

  lemma StrictGap(scaled: real, eD: real, eS: real, eT: real, quantity: int, gap: int)
    requires quantity >= 1 && -0.5 * quantity as real <= scaled <= 0.5 * quantity as real
    requires -0.5 < eD <= 0.5 && -0.5 < eS <= 0.5 && -0.5 < eT <= 0.5
    requires gap as real == scaled - eD + eS - eT
    ensures -(quantity / 2 + 1) <= gap <= quantity / 2 + 1
  {
    assert (2 * gap) as real == 2.0 * gap as real;
    assert -((quantity + 3) as real) < (2 * gap) as real < (quantity + 3) as real;
  }

  /** And no smaller bound holds: for every quantity some order drifts that far. */
  lemma SharpDriftIsReached(quantity: int)
    requires quantity >= 1
    ensures var a, d, s := 0.005, 0.0049, 0.005;
            ComputeTotal(a, quantity, d, s)
            == Formula(RoundCents(a), quantity, RoundCents(d), RoundCents(s)) - (quantity / 2 + 1)
  {
    var x := 0.005 * quantity as real - 0.0049 + 0.005;
    assert RoundCents(0.005) == 1 && RoundCents(0.0049) == 0;
    var h := quantity / 2;
    assert Cents(x) == 0.5 * quantity as real + 0.01;
    if quantity % 2 == 0 {
      assert quantity as real == 2.0 * h as real;
      assert RoundCents(x) == h;
    } else {
      assert quantity as real == 2.0 * h as real + 1.0;
      assert RoundCents(x) == h + 1;
    }
  }

  /** On whole-cent inputs the total is exact. */
  lemma ExactTotal(a: int, quantity: int, d: int, s: int)
    ensures ComputeTotal(Units(a), quantity, Units(d), Units(s)) == Formula(a, quantity, d, s)
  {
    var c := a * quantity - d + s;
    assert Cents(Units(a) * quantity as real - Units(d) + Units(s)) == c as real;
    assert Units(a) * quantity as real - Units(d) + Units(s) == Units(c);
    RoundCentsExact(c);
  }

  /** Number((sum / count).toFixed(2)) for a sum in cents; 0 when there is nothing to average. */
  function Average(sum: int, count: nat): int {
    if count == 0 then 0 else RoundCents(Units(sum) / count as real)
  }

  /** The average times the count misses the sum by at most half a cent each. */
  lemma AverageIsClose(sum: int, count: nat)
    requires count > 0
    ensures -(count as int) <= 2 * (Average(sum, count) * count - sum) <= count
  {
    hide RoundCents;
    var n, x := count as real, Units(sum) / count as real;
    var average := Average(sum, count);
    RoundCentsIsNearest(x);
    ScaledError(average as real - Cents(x), count);
    assert x * n == Units(sum);
    assert Cents(x) * n == sum as real by { assert Cents(x) * n == 100.0 * (x * n); }
    assert (average as real - Cents(x)) * n == average as real * n - Cents(x) * n;
    assert (average * count) as real == average as real * n;
  }

  lemma TimesKeepsOrder(a: int, b: int, w: nat)
    ensures a <= b ==> a * w <= b * w
  {
    if a <= b { assert (b - a) * w >= 0; }
  }

  lemma ShareStaysWithin(rate: int, part: nat, whole: nat)
    requires part <= whole && whole > 0
    requires -(whole as int) <= 2 * (rate * whole - 10000 * part) <= whole
    ensures 0 <= rate <= 10000
  {
    TimesKeepsOrder(rate, -1, whole);
    TimesKeepsOrder(10001, rate, whole);
  }
}
