/** Facts about quotients, remainders and powers of two that the solver does not find alone. */
module Arithmetic {

  lemma Assoc(x: nat, y: nat, z: nat)
    ensures (x * y) * z == x * (y * z)
  {
  }

  lemma Rotate(x: nat, y: nat, z: nat)
    ensures z * (x * y) == x * (y * z)
  {
  }

  lemma Scale(n: nat, d: int)
    requires n > 0
    ensures d >= 1 ==> n * d >= n
    ensures d <= -1 ==> n * d + n <= 0
  {
  }

  lemma QuotientIsNat(x: nat, n: nat)
    requires n > 0
    ensures x / n >= 0
  {
  }

  lemma Division(x: nat, n: nat, q: nat, r: nat)
    requires r < n && x == n * q + r
    ensures x / n == q && x % n == r
  {
    var d := x / n - q;
    assert n * d == r - x % n;
    Scale(n, d);
  }

  lemma Digits(x: nat, n: nat) returns (q: nat, r: nat)
    requires n > 0
    ensures q == x / n && r == x % n && x == n * q + r && r < n
  {
    QuotientIsNat(x, n);
    q, r := x / n, x % n;
  }

  lemma Below(r: nat, n: nat, k: nat)
    requires r < n && k > 0
    ensures r * k + k <= n * k
  {
    var d := n - r - 1;
    assert n * k == r * k + k + d * k;
  }

  lemma ScaleDown(a: nat, n: nat, k: nat)
    requires n > 0 && k > 0
    ensures n * k > 0 && (a * k) / (n * k) == a / n && (a * k) % (n * k) == (a % n) * k
  {
    var q, r := Digits(a, n);
    assert a * k == (n * k) * q + r * k;
    Below(r, n, k);
    Division(a * k, n * k, q, r * k);
  }

  lemma ScaledRemainder(a: nat, n: nat, k: nat, scaled: nat, m: nat)
    requires n > 0 && k > 0 && scaled == k * a && m == n * k
    ensures m > 0 && scaled % m == (a % n) * k
  {
    assert scaled == a * k;
    ScaleDown(a, n, k);
  }

  /** Dividing by a product, digit by digit. */
  lemma Nested(x: nat, a: nat, b: nat)
    requires a > 0 && b > 0
    ensures a * b > 0 && x / (a * b) == (x / a) / b
    ensures (x % (a * b)) % a == x % a && (x % (a * b)) / a == (x / a) % b
  {
    var q, r := Digits(x, a);
    var q', r' := Digits(q, b);
    Regroup(x, a, b, q, r, q', r');
    Below(r', b, a);
    Division(x, a * b, q', r' * a + r);
    Division(r' * a + r, a, r', r);
  }

  lemma Regroup(x: nat, a: nat, b: nat, q: nat, r: nat, q': nat, r': nat)
    requires x == a * q + r && q == b * q' + r'
    ensures x == (a * b) * q' + (r' * a + r)
  {
  }

  lemma NestedMultiple(x: nat, a: nat, b: nat)
    requires a > 0 && b > 0
    ensures a * b > 0 && (x % (a * b) == 0 <==> x % a == 0 && (x / a) % b == 0)
  {
    Nested(x, a, b);
    var q, r := Digits(x % (a * b), a);
    if r == 0 && q == 0 { assert x % (a * b) == a * 0 + 0; }
  }

  /** The numbers with the same quotient as a multiple. */
  lemma Block(x: nat, n: nat, y: nat)
    requires n > 0 && x % n == 0
    ensures y / n == x / n <==> x <= y < x + n
    ensures x <= y < x + n ==> y % n == y - x
  {
    var q, r := Digits(x, n);
    var q', r' := Digits(y, n);
    if x <= y < x + n { Division(y, n, q, y - x); }
  }

  lemma MultiplePlus(x: nat, n: nat, k: nat)
    requires n > 0 && x % n == 0
    ensures (x + k * n) % n == 0 && (x + k * n) / n == x / n + k
  {
    var q, r := Digits(x, n);
    assert x + k * n == n * (q + k) + 0;
    Division(x + k * n, n, q + k, 0);
  }

  /** Cutting off the digits above `a * b`, and moving up what is left, does not change the
      digit that is next. */
  lemma MiddleDigit(x: nat, a: nat, b: nat, k: nat)
    requires a > 0 && b > 0 && k > 0
    ensures a * b > 0 && a * k > 0
    ensures ((x % (a * b)) * k) / (a * k) < b && x / a == b * (x / (a * b)) + ((x % (a * b)) * k) / (a * k)
  {
    Nested(x, a, b);
    ScaleDown(x % (a * b), a, k);
    var q, r := Digits(x / a, b);
  }

  /** Multiplying a number in terms of its digits. */
  lemma ScaleDigits(p: nat, high: nat, low: nat, q: nat)
    ensures q * (p * high + low) == (p * q) * high + low * q
  {
    assert q * (p * high) == (p * q) * high;
  }

  lemma ExactQuotient(x: nat, a: nat, b: nat)
    requires b > 0
    ensures (x * (a * b)) / b == x * a
  {
    assert x * (a * b) == b * (x * a) + 0;
    Division(x * (a * b), b, x * a, 0);
  }

  lemma UniqueDigits(n: nat, q: nat, r: nat, q': nat, r': nat)
    requires r < n && r' < n && n * q + r == n * q' + r'
    ensures q == q' && r == r'
  {
    Division(n * q + r, n, q, r);
    Division(n * q' + r', n, q', r');
  }

  lemma QuotientBelow(x: nat, n: nat, m: nat)
    requires n > 0 && x < n * m
    ensures x / n < m
  {
  }

  function Pow2(e: nat): (n: nat)
    ensures n > 0
  {
    if e == 0 then 1 else 2 * Pow2(e - 1)
  }

  lemma {:induction false} Pow2Add(a: nat, b: nat)
    ensures Pow2(a + b) == Pow2(a) * Pow2(b)
  {
    if b > 0 { Pow2Add(a, b - 1); }
  }
}
