/** Powers of two, and facts about quotients and remainders. */
module Arith {
  /** One more than the largest 32-bit number. */
  const WORD := 0x1_0000_0000

  function Pow2(n: nat): (p: nat)
    ensures p > 0
  {
    if n == 0 then 1 else 2 * Pow2(n - 1)
  }

  lemma {:induction false} TooFar(m: int, d: int, r: int, r': int)
    requires m > 0 && m * d == r - r' && 0 <= r < m && 0 <= r' < m
    ensures d == 0
  {
    MulAtLeast(d, m);
    MulAtLeast(-d, m);
  }

  /** Quotient and remainder are unique. */
  lemma {:induction false} DivUnique(n: int, m: int, q: int, r: int)
    requires m > 0 && n == m * q + r && 0 <= r < m
    ensures n / m == q && n % m == r
  {
    var q', r' := n / m, n % m;
    assert m * (q - q') == r' - r by {
      assert m * (q - q') == m * q - m * q';
    }
    TooFar(m, q - q', r', r);
  }

  lemma {:induction false} AddMultiple(n: int, m: int, d: int)
    requires m > 0
    ensures (n + m * d) / m == n / m + d && (n + m * d) % m == n % m
  {
    assert m * (n / m + d) == m * (n / m) + m * d;
    DivUnique(n + m * d, m, n / m + d, n % m);
  }

  lemma {:induction false} MulAtLeast(d: int, m: int)
    requires m > 0
    ensures d >= 1 ==> d * m >= m
    ensures d >= 0 ==> d * m >= 0
  {
  }

  lemma {:induction false} MulMinus(a: int, b: int, m: int)
    ensures (b - a) * m == b * m - a * m
  {
  }

  lemma {:induction false} MulOrder(a: int, b: int, m: int)
    requires m > 0
    ensures a * m <= b * m <==> a <= b
  {
    if a <= b {
      MulMinus(a, b, m);
      MulAtLeast(b - a, m);
    } else {
      MulMinus(b, a, m);
      MulAtLeast(a - b, m);
    }
  }

  lemma {:induction false} MulThrice(a: int, b: int, c: int)
    ensures a * (b * c) == (a * b) * c && a * (c * b) == c * (a * b)
  {
  }

  lemma {:induction false} Regroup(p: int, m: int, h: int, l: int, r: int)
    ensures p * (m * h + l) + r == (p * m) * h + (p * l + r)
  {
    assert p * (m * h + l) == p * (m * h) + p * l;
    assert p * (m * h) == (p * m) * h;
  }

  lemma {:induction false} RemainderBelow(p: int, m: int, l: int, r: int)
    requires 0 <= l < m && 0 <= r < p
    ensures 0 <= p * l + r < p * m
  {
    MulOrder(l, m - 1, p);
    MulAtLeast(l, p);
    MulMinus(1, m, p);
  }

  /** Dividing by p and then by m is dividing by their product. */
  lemma {:induction false} DivTwice(n: int, p: int, m: int)
    requires p > 0 && m > 0
    ensures p * m > 0 && n / (p * m) == n / p / m
  {
    var q, r := n / p, n % p;
    var h, l := q / m, q % m;
    MulAtLeast(m, p);
    Regroup(p, m, h, l, r);
    RemainderBelow(p, m, l, r);
    DivUnique(n, p * m, h, p * l + r);
  }

  /** The low part of a number is what it leaves. */
  lemma {:induction false} LowPart(low: int, m: int, high: int)
    requires 0 <= low < m
    ensures (low + m * high) % m == low && (low + m * high) / m == high
  {
    DivUnique(low + m * high, m, high, low);
  }
}
