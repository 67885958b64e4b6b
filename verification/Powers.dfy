/** Powers and rounding to a multiple of one, as the amount packers need them. */
module Powers {

  function Pow(b: nat, e: nat): (p: nat)
    ensures b > 0 ==> p > 0
    ensures b >= 2 ==> p > e
  {
    if e == 0 then 1 else MulGrows(b, Pow(b, e - 1)); b * Pow(b, e - 1)
  }

  lemma MulGrows(b: nat, p: nat)
    ensures b > 0 && p > 0 ==> b * p > 0
    ensures b >= 2 ==> b * p >= p + p
  {
    if b >= 2 {
      assert b * p == (b - 2) * p + p + p;
    }
  }

  lemma MulMono(a: nat, b: nat, c: nat)
    requires a <= b
    ensures a * c <= b * c && c * a <= c * b
  {
    assert b * c == a * c + (b - a) * c;
  }

  lemma ProductGrows(c: nat, a: nat, b: nat)
    requires c > 0 && a < b
    ensures c * a < c * b
  {
    MulMono(a + 1, b, c);
    assert c * (a + 1) == c * a + c;
  }

  lemma MulAssoc(a: nat, b: nat, c: nat)
    ensures a * (b * c) == (a * b) * c
  {
  }

  lemma {:induction false} PowAdd(b: nat, x: nat, y: nat)
    ensures Pow(b, x + y) == Pow(b, x) * Pow(b, y)
  {
    if x > 0 {
      PowAdd(b, x - 1, y);
      MulAssoc(b, Pow(b, x - 1), Pow(b, y));
    }
  }

  lemma PowMono(b: nat, x: nat, y: nat)
    requires b > 0 && x <= y
    ensures Pow(b, x) <= Pow(b, y)
  {
    PowAdd(b, x, y - x);
    MulMono(1, Pow(b, y - x), Pow(b, x));
  }

  /** A multiple of a power is a multiple of every lower one. */
  lemma MultipleOfLower(b: nat, m: nat, x: nat, y: nat)
    requires b > 0 && x <= y
    ensures m * Pow(b, y) == (m * Pow(b, y - x)) * Pow(b, x)
    ensures (m * Pow(b, y)) % Pow(b, x) == 0
  {
    hide Pow;
    PowAdd(b, y - x, x);
    MulAssoc(m, Pow(b, y - x), Pow(b, x));
    ExactDivision(m * Pow(b, y - x), Pow(b, x));
  }

  lemma ExactDivision(q: nat, d: nat)
    requires d > 0
    ensures (q * d) / d == q && (q * d) % d == 0
  {
    DivisionIsUnique(q * d, d, q, 0);
  }

  lemma DivisionIsUnique(n: nat, d: nat, q: nat, r: nat)
    requires d > 0 && n == q * d + r && r < d
    ensures n / d == q && n % d == r
  {
    var q', r' := n / d, n % d;
    assert n == q' * d + r';
    if q' < q {
      MulMono(q' + 1, q, d);
    } else if q < q' {
      MulMono(q + 1, q', d);
    }
  }

  lemma DivBounds(n: nat, d: nat)
    requires d > 0
    ensures (n / d) * d <= n < (n / d + 1) * d
    ensures n == (n / d) * d + n % d
  {
    assert n == (n / d) * d + n % d;
    assert (n / d + 1) * d == (n / d) * d + d;
  }

  lemma DivAtMost(n: nat, d: nat, q: nat)
    requires d > 0
    ensures n / d <= q <==> n < (q + 1) * d
    ensures q <= n / d <==> q * d <= n
  {
    DivBounds(n, d);
    if n / d <= q {
      MulMono(n / d + 1, q + 1, d);
    } else {
      MulMono(q + 1, n / d, d);
    }
    if q <= n / d {
      MulMono(q, n / d, d);
    } else {
      MulMono(n / d + 1, q, d);
    }
  }

  /** `n` in units of a power of the base, rounded down. */
  function Quot(n: nat, b: nat, e: nat): nat
    requires b > 0
  {
    n / Pow(b, e)
  }

  lemma QuotZero(n: nat, b: nat)
    requires b > 0
    ensures Quot(n, b, 0) == n
  {
  }

  /** Dividing by one power and then by the base is dividing by the next power. */
  lemma DivDiv(n: nat, b: nat, e: nat)
    requires b > 0
    ensures Quot(n, b, e) / b == Quot(n, b, e + 1)
  {
    var p := Pow(b, e);
    assert Pow(b, e + 1) == b * p;
    hide Pow;
    DivTwice(n, p, b);
  }

  lemma DivTwice(n: nat, p: nat, b: nat)
    requires b > 0 && p > 0
    ensures b * p > 0 && n / p / b == n / (b * p)
  {
    MulGrows(b, p);
    DivBounds(n / p, b);
    DivBounds(n, p);
    DivideAgain(n, p, b, n / p / b, (n / p) % b, n % p);
  }

  lemma DivideAgain(n: nat, p: nat, b: nat, q: nat, r: nat, rest: nat)
    requires r < b && rest < p && b * p > 0 && n == (q * b + r) * p + rest
    ensures q == n / (b * p)
  {
    MulAssoc(q, b, p);
    Distribute(q * b, r, p);
    MulMono(r, b - 1, p);
    Distribute(b - 1, 1, p);
    DivisionIsUnique(n, b * p, q, r * p + rest);
  }

  lemma Distribute(a: nat, b: nat, c: nat)
    ensures (a + b) * c == a * c + b * c
  {
  }
}
