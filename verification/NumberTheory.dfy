/** The arithmetic behind the port pool: greatest common divisors, Euclid's lemma,
    and counting the multiples of a stride. */
module NumberTheory {

  ghost predicate Divides(d: int, x: int) {
    exists k: int :: x == k * d
  }

  ghost predicate Prime(n: int) {
    n >= 2 && forall d :: 2 <= d < n ==> !Divides(d, n)
  }

  lemma DividesSum(d: int, x: int, y: int)
    requires Divides(d, x) && Divides(d, y)
    ensures Divides(d, x + y) && Divides(d, x - y)
  {
    var j: int, k: int :| x == j * d && y == k * d;
    assert x + y == (j + k) * d && x - y == (j - k) * d;
  }

  lemma DividesPositive(d: int, x: int)
    requires Divides(d, x) && x > 0 && d >= 0
    ensures 1 <= d <= x
  {
    var k: int :| x == k * d;
    assert k <= 0 ==> k * d <= 0;
    assert d == 0 ==> k * d == 0;
    assert k * d == (k - 1) * d + d;
    assert (k - 1) * d >= 0;
  }

  function Gcd(x: nat, y: nat): nat
    decreases x + y
  {
    if x == 0 then y else if y == 0 then x
    else if x <= y then Gcd(x, y - x) else Gcd(x - y, y)
  }

  lemma {:induction false} GcdDivides(x: nat, y: nat)
    ensures Divides(Gcd(x, y), x) && Divides(Gcd(x, y), y)
    decreases x + y
  {
    var g := Gcd(x, y);
    if x == 0 || y == 0 {
      assert 0 == 0 * g && g == 1 * g;
    } else if x <= y {
      GcdDivides(x, y - x);
      DividesSum(g, y - x, x);
    } else {
      GcdDivides(x - y, y);
      DividesSum(g, x - y, y);
    }
  }

  /** What divides two multiples of b divides the multiple by their gcd. */
  lemma {:induction false} GcdCombination(p: int, x: nat, y: nat, b: int)
    requires Divides(p, x * b) && Divides(p, y * b)
    ensures Divides(p, Gcd(x, y) * b)
    decreases x + y
  {
    if x == 0 || y == 0 {
    } else if x <= y {
      DividesSum(p, y * b, x * b);
      assert (y - x) * b == y * b - x * b;
      GcdCombination(p, x, y - x, b);
    } else {
      DividesSum(p, x * b, y * b);
      assert (x - y) * b == x * b - y * b;
      GcdCombination(p, x - y, y, b);
    }
  }

  /** Euclid's lemma, for a factor below the prime. */
  lemma Euclid(p: nat, a: nat, b: int)
    requires Prime(p) && 0 < a < p && Divides(p, a * b)
    ensures Divides(p, b)
  {
    var g := Gcd(p, a);
    GcdDivides(p, a);
    DividesPositive(g, a);
    assert g == 1;
    assert p * b == b * p;
    assert Divides(p, p * b);
    GcdCombination(p, p, a, b);
    assert g * b == b;
  }

  lemma SameRemainder(x: int, y: int, n: int)
    requires n > 0 && x % n == y % n
    ensures Divides(n, x - y)
  {
    assert x == (x / n) * n + x % n && y == (y / n) * n + y % n;
    assert x - y == (x / n - y / n) * n by {
      assert (x / n - y / n) * n == (x / n) * n - (y / n) * n;
    }
  }

  // ---------- 1009 ----------

  predicate NoDivisorBetween(n: int, lo: int, hi: int)
    requires lo >= 2
    decreases hi - lo
  {
    lo > hi || (n % lo != 0 && NoDivisorBetween(n, lo + 1, hi))
  }

  lemma {:induction false} NoDivisorAt(n: int, lo: int, hi: int, d: int)
    requires 2 <= lo <= d <= hi && NoDivisorBetween(n, lo, hi)
    ensures n % d != 0
    decreases hi - lo
  {
    if d > lo { NoDivisorAt(n, lo + 1, hi, d); }
  }

  lemma QuotientIsDivisor(n: int, d: int, k: int)
    requires d > 0 && n == k * d
    ensures n % d == 0
  {
    assert n == d * k;
    MultipleHasNoRemainder(d, k);
  }

  lemma MultipleHasNoRemainder(d: int, k: int)
    requires d > 0
    ensures (d * k) % d == 0
  {
    var q, m := (d * k) / d, (d * k) % d;
    assert d * k == d * q + m;
    assert m == d * (k - q);
    assert k - q >= 1 ==> d * (k - q) >= d;
    assert k - q <= -1 ==> d * (k - q) <= -d;
  }

  lemma Prime1009()
    ensures Prime(1009)
  {
    assert NoDivisorBetween(1009, 27, 31);
    assert NoDivisorBetween(1009, 22, 31);
    assert NoDivisorBetween(1009, 17, 31);
    assert NoDivisorBetween(1009, 12, 31);
    assert NoDivisorBetween(1009, 7, 31);
    assert NoDivisorBetween(1009, 2, 31);
    forall d | 2 <= d < 1009 ensures !Divides(d, 1009) {
      if k: int :| 1009 == k * d {
        QuotientIsDivisor(1009, d, k);
        QuotientIsDivisor(1009, k, d);
        if d <= 31 { NoDivisorAt(1009, 2, 31, d); } else { NoDivisorAt(1009, 2, 31, k); }
      }
    }
  }
}
