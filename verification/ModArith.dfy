/** Congruences and inverses modulo a prime. */
module ModArith {

  predicate Congruent(a: int, b: int, n: nat)
    requires n > 0
  {
    a % n == b % n
  }

  lemma SmallMultiple(k: int, n: nat)
    requires 0 - n < k * n < n
    ensures k == 0
  {
    assert k >= 1 ==> k * n >= n;
    assert k <= -1 ==> k * n <= 0 - n;
  }

  lemma DivModUnique(x: int, q: int, r: int, n: nat)
    requires x == q * n + r && 0 <= r < n
    ensures x % n == r && x / n == q
  {
    var k := x / n - q;
    assert (x / n) * n + x % n == x;
    assert k * n == (x / n) * n - q * n;
    SmallMultiple(k, n);
  }

  /** A difference that is a multiple of n. */
  lemma CongruentByMultiple(a: int, b: int, k: int, n: nat)
    requires n > 0 && a == b + k * n
    ensures Congruent(a, b, n)
  {
    var q, r := b / n, b % n;
    assert b == q * n + r;
    assert a == (q + k) * n + r by { assert (q + k) * n == q * n + k * n; }
    DivModUnique(a, q + k, r, n);
  }

  lemma MultipleOfDifference(a: int, b: int, n: nat) returns (k: int)
    requires n > 0 && Congruent(a, b, n)
    ensures a == b + k * n
  {
    k := a / n - b / n;
    assert a == (a / n) * n + a % n && b == (b / n) * n + b % n;
    assert k * n == (a / n) * n - (b / n) * n;
  }

  lemma CongruentAdd(a: int, a': int, b: int, b': int, n: nat)
    requires n > 0 && Congruent(a, a', n) && Congruent(b, b', n)
    ensures Congruent(a + b, a' + b', n)
  {
    var k := MultipleOfDifference(a, a', n);
    var l := MultipleOfDifference(b, b', n);
    assert (k + l) * n == k * n + l * n;
    CongruentByMultiple(a + b, a' + b', k + l, n);
  }

  lemma CongruentMul(a: int, a': int, b: int, b': int, n: nat)
    requires n > 0 && Congruent(a, a', n) && Congruent(b, b', n)
    ensures Congruent(a * b, a' * b', n)
  {
    var k := MultipleOfDifference(a, a', n);
    var l := MultipleOfDifference(b, b', n);
    calc {
      a * b;
      (a' + k * n) * b;
      a' * b + (k * n) * b;
      a' * (b' + l * n) + (k * n) * b;
      a' * b' + a' * (l * n) + (k * n) * b;
      { assert a' * (l * n) == (a' * l) * n; assert (k * n) * b == (k * b) * n; }
      a' * b' + (a' * l) * n + (k * b) * n;
      a' * b' + (a' * l + k * b) * n;
    }
    CongruentByMultiple(a * b, a' * b', a' * l + k * b, n);
  }

  lemma CongruentReduced(a: int, n: nat)
    requires n > 0
    ensures Congruent(a % n, a, n)
  {
    DivModUnique(a % n, 0, a % n, n);
  }

  lemma ReducedEqual(a: nat, b: nat, n: nat)
    requires a < n && b < n && Congruent(a, b, n)
    ensures a == b
  {
    DivModUnique(a, 0, a, n);
    DivModUnique(b, 0, b, n);
  }

  lemma CongruentTransitive(a: int, b: int, c: int, n: nat)
    requires n > 0 && Congruent(a, b, n) && Congruent(b, c, n)
    ensures Congruent(a, c, n)
  {
  }

  // ----- arithmetic on reduced numbers -----

  function AddMod(a: nat, b: nat, n: nat): (r: nat)
    requires n > 0
    ensures r < n
  {
    (a + b) % n
  }

  function MulMod(a: nat, b: nat, n: nat): (r: nat)
    requires n > 0
    ensures r < n
  {
    (a * b) % n
  }

  function NegMod(v: nat, n: nat): (r: nat)
    requires v < n
    ensures r < n
  {
    (n - v) % n
  }

  lemma AddModCongruent(a: nat, a': int, b: nat, b': int, n: nat)
    requires n > 0 && Congruent(a, a', n) && Congruent(b, b', n)
    ensures Congruent(AddMod(a, b, n), a' + b', n)
  {
    CongruentAdd(a, a', b, b', n);
    CongruentReduced(a + b, n);
  }

  lemma MulModCongruent(a: nat, a': int, b: nat, b': int, n: nat)
    requires n > 0 && Congruent(a, a', n) && Congruent(b, b', n)
    ensures Congruent(MulMod(a, b, n), a' * b', n)
  {
    hide Congruent;
    CongruentMul(a, a', b, b', n);
    CongruentReduced(a * b, n);
    CongruentTransitive(MulMod(a, b, n), a * b, a' * b', n);
  }

  lemma NegModCongruent(v: nat, n: nat)
    requires v < n
    ensures Congruent(NegMod(v, n), 0 - v, n)
    ensures v > 0 ==> NegMod(v, n) == n - v
  {
    CongruentReduced(n - v, n);
    CongruentByMultiple(n - v, 0 - v, 1, n);
    if v > 0 { DivModUnique(n - v, 0, n - v, n); }
  }

  lemma DifferenceCongruent(a: nat, b: nat, n: nat)
    requires a < n && b < n
    ensures Congruent(AddMod(a, NegMod(b, n), n), a - b, n)
    ensures a != b ==> AddMod(a, NegMod(b, n), n) > 0
  {
    NegModCongruent(b, n);
    AddModCongruent(a, a, NegMod(b, n), 0 - b, n);
    if AddMod(a, NegMod(b, n), n) == 0 {
      CongruentAdd(a - b, 0, b, b, n);
      ReducedEqual(a, b, n);
    }
  }

  // ----- primes and inverses -----

  predicate Divides(d: nat, n: nat)
    requires d > 0
  {
    n % d == 0
  }

  ghost predicate Prime(n: nat) {
    n >= 2 && forall d :: 1 < d < n ==> !Divides(d, n)
  }

  function Gcd(a: nat, b: nat): nat
    decreases b
  {
    if b == 0 then a else Gcd(b, a % b)
  }

  /** Extended Euclid. */
  function Bezout(a: nat, b: nat): (c: (int, int))
    ensures a * c.0 + b * c.1 == Gcd(a, b)
    decreases b
  {
    if b == 0 then (1, 0)
    else
      var (x, y) := Bezout(b, a % b);
      BezoutStep(a, b, x, y);
      (y, x - (a / b) * y)
  }

  lemma BezoutStep(a: nat, b: nat, x: int, y: int)
    requires b > 0
    ensures a * y + b * (x - (a / b) * y) == b * x + (a % b) * y
  {
    var q, r := a / b, a % b;
    assert a == b * q + r;
    assert (b * q + r) * y == (b * q) * y + r * y;
    assert b * (x - q * y) == b * x - b * (q * y);
    assert (b * q) * y == b * (q * y);
  }

  lemma {:induction false} GcdDivides(a: nat, b: nat) returns (qa: nat, qb: nat)
    ensures a == Gcd(a, b) * qa && b == Gcd(a, b) * qb
    decreases b
  {
    if b == 0 {
      qa, qb := 1, 0;
    } else {
      var g := Gcd(b, a % b);
      assert Gcd(a, b) == g;
      hide Gcd;
      var p, r := GcdDivides(b, a % b);
      qb := p;
      qa := DividesDividend(a, b, g, p, r);
    }
  }

  lemma DividesDividend(a: nat, b: nat, g: nat, p: nat, r: nat) returns (qa: nat)
    requires b > 0 && b == g * p && a % b == g * r
    ensures a == g * qa
  {
    var q := a / b;
    qa := q * p + r;
    assert a == q * b + a % b;
    CombineMultiples(q, b, a % b, g, p, r);
  }

  lemma CombineMultiples(q: nat, b: nat, m: nat, g: nat, p: nat, r: nat)
    requires b == g * p && m == g * r
    ensures q * b + m == g * (q * p + r)
  {
    assert q * (g * p) == g * (q * p);
    assert g * (q * p + r) == g * (q * p) + g * r;
  }

  lemma CoprimeToPrime(a: nat, n: nat)
    requires Prime(n) && 0 < a < n
    ensures Gcd(a, n) == 1
  {
    var g := Gcd(a, n);
    var qa, qn := GcdDivides(a, n);
    assert g > 0 && qa > 0 by { assert a == g * qa; }
    assert g <= a by { assert g * qa >= g; }
    assert n == qn * g + 0;
    DivModUnique(n, qn, 0, g);
    assert Divides(g, n);
  }

  /** The inverse of a modulo n, and 0 for 0. */
  function Inverse(a: nat, n: nat): (r: nat)
    requires n > 0
    ensures r < n
  {
    if a == 0 then 0 else Bezout(a, n).0 % n
  }

  lemma InverseCorrect(a: nat, n: nat)
    requires Prime(n) && 0 < a < n
    ensures Congruent(a * Inverse(a, n), 1, n)
  {
    CoprimeToPrime(a, n);
    var (x, y) := Bezout(a, n);
    assert 1 == a * x + n * y;
    CongruentReduced(x, n);
    CongruentMul(a, a, x % n, x, n);
    assert n * y == y * n;
    CongruentByMultiple(1, a * x, y, n);
  }

  /** A prime divides no product of two smaller positive numbers. */
  lemma NoZeroDivisors(a: nat, b: nat, n: nat)
    requires Prime(n) && 0 < a < n && 0 < b < n
    ensures !Congruent(a * b, 0, n)
  {
    if Congruent(a * b, 0, n) {
      var i := Inverse(a, n);
      InverseCorrect(a, n);
      CongruentMul(a * i, 1, b, b, n);
      CongruentMul(a * b, 0, i, i, n);
      assert (a * i) * b == (a * b) * i;
      ReducedEqual(b, 0, n);
    }
  }
}
