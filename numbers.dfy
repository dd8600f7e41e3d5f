/** Integer renderings of the rounding and ceiling operators the dashboard and its server apply
    to exact ratios. A ratio is written as a numerator and a positive denominator. */
module Numbers {

  /** JavaScript's Math.round of n/d: the nearest integer, a half rounded towards +infinity. */
  function JsRound(n: int, d: int): (r: int)
    requires d > 0
    ensures 2 * r * d - d <= 2 * n < 2 * r * d + d
  {
    var r := (2 * n + d) / (2 * d);
    assert 2 * d * r <= 2 * n + d < 2 * d * r + 2 * d;
    r
  }

  /** Math.round of n/d for a denominator of either sign. */
  function JsRoundRatio(n: int, d: int): (r: int)
    requires d != 0
    ensures d > 0 ==> 2 * r * d - d <= 2 * n < 2 * r * d + d
    ensures d < 0 ==> 2 * r * d + d < 2 * n <= 2 * r * d - d
  {
    if d > 0 then JsRound(n, d) else JsRound(-n, -d)
  }

  /** Python's built-in round of n/d: the nearest integer, a half rounded to the even neighbour. */
  function PyRound(n: int, d: int): (r: int)
    requires d > 0
    ensures 2 * r * d - d <= 2 * n <= 2 * r * d + d
    ensures 2 * n == 2 * r * d - d || 2 * n == 2 * r * d + d ==> r % 2 == 0
  {
    var q := n / d;
    var m := n % d;
    assert n == q * d + m && 0 <= m < d;
    if 2 * m < d then q
    else if 2 * m > d then q + 1
    else if q % 2 == 0 then q
    else q + 1
  }

  /** Math.ceil of n/d (and the same integer as Python's (n + d - 1) // d for d > 0). */
  function CeilDiv(n: int, d: int): (r: int)
    requires d > 0
    ensures (r - 1) * d < n <= r * d
  {
    var q := (-n) / d;
    assert q * d <= -n < q * d + d;
    -q
  }

  /** The ceiling is the one integer q with (q - 1) * d < n <= q * d. */
  lemma CeilDivUnique(n: int, d: int, q: int)
    requires d > 0 && (q - 1) * d < n <= q * d
    ensures CeilDiv(n, d) == q
  {
    var r := CeilDiv(n, d);
    if r < q {
      MulLe(r, q - 1, d);
    } else if r > q {
      MulLe(q, r - 1, d);
    }
  }

  /** Taking d away from n > d takes one away from the ceiling. */
  lemma CeilDivStep(n: int, d: int)
    requires d > 0 && n > d
    ensures CeilDiv(n, d) == CeilDiv(n - d, d) + 1
  {
    var q := CeilDiv(n - d, d);
    assert (q + 1 - 1) * d == q * d && (q + 1) * d == q * d + d && (q - 1) * d == q * d - d;
    CeilDivUnique(n, d, q + 1);
  }

  lemma MulLe(a: int, b: int, d: int)
    requires a <= b && d > 0
    ensures a * d <= b * d
  {
    assert b * d - a * d == (b - a) * d;
  }

  /** Math.round keeps a ratio that lies between two integers between them. */
  lemma JsRoundBetween(n: int, d: int, lo: int, hi: int)
    ensures d > 0 && lo * d <= n <= hi * d ==> lo <= JsRound(n, d) <= hi
  {
    if d <= 0 {
      return;
    }
    var r := JsRound(n, d);
    assert 2 * r * d == 2 * (r * d);
    assert (hi + 1) * d == hi * d + d && (r + 1) * d == r * d + d;
    if r > hi && n <= hi * d {
      MulLe(hi + 1, r, d);
    }
    if r < lo && lo * d <= n {
      MulLe(r + 1, lo, d);
    }
  }

  /** Math.round is monotone in the numerator. */
  lemma JsRoundMonotone(n: int, m: int, d: int)
    requires d > 0 && n <= m
    ensures JsRound(n, d) <= JsRound(m, d)
  {
    var a, b := JsRound(n, d), JsRound(m, d);
    assert 2 * a * d == 2 * (a * d) && 2 * b * d == 2 * (b * d);
    assert (b + 1) * d == b * d + d;
    if a > b {
      MulLe(b + 1, a, d);
    }
  }

  /** Python's round is monotone in the numerator. */
  lemma PyRoundMonotone(n: int, m: int, d: int)
    requires d > 0 && n <= m
    ensures PyRound(n, d) <= PyRound(m, d)
  {
    var q, p := n / d, m / d;
    assert n == q * d + n % d && m == p * d + m % d;
    assert q <= p by {
      if q > p {
        MulLe(p + 1, q, d);
      }
    }
    if q == p {
      assert n % d <= m % d;
    }
  }

  /** A ratio that is a whole number rounds to itself. */
  lemma PyRoundWhole(k: int, d: int)
    requires d > 0
    ensures PyRound(k * d, d) == k
  {
    var r := PyRound(k * d, d);
    assert 2 * r * d == 2 * (r * d) && 2 * (k * d) == 2 * k * d;
    if r > k {
      MulLe(k + 1, r, d);
    } else if r < k {
      MulLe(r + 1, k, d);
    }
  }

  /** The values never fall, starting from `from`. */
  predicate Rising(from: int, ps: seq<int>)
    decreases |ps|
  {
    ps == [] || (from <= ps[0] && Rising(ps[0], ps[1..]))
  }

  lemma {:induction false} RisingAppend(from: int, a: seq<int>, b: seq<int>)
    requires Rising(from, a) && Rising(if a == [] then from else a[|a| - 1], b)
    ensures Rising(from, a + b)
    decreases |a|
  {
    if a == [] {
      assert a + b == b;
    } else {
      assert (a + b)[0] == a[0] && (a + b)[1..] == a[1..] + b;
      RisingAppend(a[0], a[1..], b);
    }
  }
}
