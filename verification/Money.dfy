/**
 Decimal money: exact reals, rounded to cents half away from zero.
 */
module Money {

  const HALF_CENT: real := 0.005

  /** Round to an integer, ties away from zero. */
  function HalfUp(x: real): int {
    if x >= 0.0 then (x + 0.5).Floor else -((-x + 0.5).Floor)
  }

  /** Decimal.quantize(0.01, ROUND_HALF_UP). */
  function Quantize(v: real): real {
    HalfUp(v * 100.0) as real / 100.0
  }

  /** A whole number of cents, what a Numeric(_, 2) column holds. */
  predicate IsCents(v: real) {
    (v * 100.0).Floor as real == v * 100.0
  }

  function Abs(x: real): real {
    if x >= 0.0 then x else -x
  }

  lemma FloorOfInt(n: int, x: real)
    requires n as real <= x < n as real + 1.0
    ensures x.Floor == n
  {
  }

  lemma CentsOf(n: int)
    ensures IsCents(n as real / 100.0)
  {
    FloorOfInt(n, n as real / 100.0 * 100.0);
  }

  /** Rounding gives whole cents at most half a cent away. */
  lemma QuantizeIsNear(v: real)
    ensures IsCents(Quantize(v))
    ensures Abs(Quantize(v) - v) <= HALF_CENT
  {
    CentsOf(HalfUp(v * 100.0));
    var x := v * 100.0;
    assert Abs(HalfUp(x) as real - x) <= 0.5;
  }

  /** Rounding leaves whole cents alone. */
  lemma QuantizeFixesCents(v: real)
    requires IsCents(v)
    ensures Quantize(v) == v
  {
    var n := (v * 100.0).Floor;
    if v * 100.0 >= 0.0 {
      FloorOfInt(n, v * 100.0 + 0.5);
    } else {
      FloorOfInt(-n, -(v * 100.0) + 0.5);
    }
  }

  /** No whole number of cents is nearer than the rounded value, and a tie goes away from zero. */
  lemma QuantizeIsNearest(v: real, w: real)
    requires IsCents(w)
    ensures Abs(Quantize(v) - v) <= Abs(w - v)
    ensures Abs(Quantize(v) - v) == Abs(w - v) ==> Abs(w) <= Abs(Quantize(v))
  {
    QuantizeIsNear(v);
    if w != Quantize(v) {
      var m, n := (w * 100.0).Floor, HalfUp(v * 100.0);
      assert m != n;
      assert w == m as real / 100.0;
      var x := v * 100.0;
      assert Abs(n as real - x) <= 0.5;
      assert Abs(m as real - x) >= 0.5;
      if Abs(n as real - x) == 0.5 {
        assert if x >= 0.0 then n as real == x + 0.5 else n as real == x - 0.5;
      }
    }
  }

  lemma CentsAdd(a: real, b: real)
    requires IsCents(a) && IsCents(b)
    ensures IsCents(a + b) && IsCents(a - b)
  {
    var m, n := (a * 100.0).Floor, (b * 100.0).Floor;
    FloorOfInt(m + n, (a + b) * 100.0);
    FloorOfInt(m - n, (a - b) * 100.0);
  }

  /** Two whole-cent amounts less than k + 1 cents apart are at most k cents apart. */
  lemma CentsAreDiscrete(a: real, b: real, k: nat)
    requires IsCents(a) && IsCents(b)
    requires Abs(a - b) * 100.0 < k as real + 1.0
    ensures Abs(a - b) * 100.0 <= k as real
  {
    CentsAdd(a, b);
    var d, x := ((a - b) * 100.0).Floor, (a - b) * 100.0;
    assert d as real == x;
    assert Abs(a - b) * 100.0 == Abs(x);
    assert -(k as int) - 1 < d < k as int + 1;
  }
}
