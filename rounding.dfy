/**
 * JavaScript `Math.round(num / den)` on exact rationals. `Math.round(x)` is
 * floor(x + 1/2): the nearest integer, halves rounded up. With `den > 0`,
 * Dafny's `/` is floor division, so floor((2 num + den) / (2 den)) is that
 * value for every sign of `num`.
 */
module Rounding {

  /** The integer nearest num/den; a half is rounded towards +infinity. */
  function RoundDiv(num: int, den: int): (r: int)
    requires den > 0
    ensures 2 * den * r <= 2 * num + den < 2 * den * (r + 1)
  {
    var d := 2 * den;
    var q := (2 * num + den) / d;
    assert q * d + (2 * num + den) % d == 2 * num + den;
    q
  }

  /** The bounds above pin the result down: nothing else satisfies them. */
  lemma RoundDivUnique(num: int, den: int, r: int)
    requires den > 0
    requires 2 * den * r <= 2 * num + den < 2 * den * (r + 1)
    ensures r == RoundDiv(num, den)
  {
    var q := RoundDiv(num, den);
    if r < q {
      assert 2 * den * (r + 1) <= 2 * den * q by { MulMonotone(2 * den, r + 1, q); }
    } else if r > q {
      assert 2 * den * (q + 1) <= 2 * den * r by { MulMonotone(2 * den, q + 1, r); }
    }
  }

  lemma MulMonotone(k: int, x: int, y: int)
    requires k > 0 && x <= y
    ensures k * x <= k * y
  {
  }

  /** `Math.round(count / total * 100)`: a count as a rounded percentage. */
  function Percent(count: int, total: int): (r: int)
    requires total > 0
    requires 0 <= count <= total
    ensures 0 <= r <= 100
    ensures r == RoundDiv(100 * count, total)
  {
    RoundDivBetween(100 * count, total, 0, 100);
    RoundDiv(100 * count, total)
  }

  /** 0% means nothing is counted, as long as one item is worth at least half a percent. */
  lemma PercentZero(count: int, total: int)
    requires 0 < total <= 200
    requires 0 <= count <= total
    ensures Percent(count, total) == 0 <==> count == 0
  {
    var r := Percent(count, total);
    if count > 0 {
      assert 2 * total <= 200 * count + total by {
        assert 200 * count >= 200;
      }
    } else {
      RoundDivUnique(0, total, 0);
    }
  }

  /** 100% means everything is counted, when an item is worth more than half a percent. */
  lemma PercentFull(count: int, total: int)
    requires 0 < total < 200
    requires 0 <= count <= total
    ensures Percent(count, total) == 100 <==> count == total
  {
    var r := Percent(count, total);
    if count < total {
      assert 200 * count + total < 2 * total * 100;
    } else {
      RoundDivUnique(100 * count, total, 100);
    }
  }

  /** Every value in [lo, hi] keeps its rounded mean in [lo, hi]. */
  lemma RoundDivBetween(num: int, den: int, lo: int, hi: int)
    requires den > 0
    requires lo * den <= num <= hi * den
    ensures lo <= RoundDiv(num, den) <= hi
  {
    var r := RoundDiv(num, den);
    assert 2 * den * lo == 2 * (lo * den) && 2 * den * hi == 2 * (hi * den);
    assert 2 * den * (hi + 1) == 2 * (hi * den) + 2 * den;
    MulCancel(2 * den, lo, r + 1);
    MulCancel(2 * den, r, hi + 1);
  }

  /** A positive factor can be cancelled from a strict inequality. */
  lemma MulCancel(k: int, x: int, y: int)
    requires k > 0 && k * x < k * y
    ensures x < y
  {
  }
}
