/** Java's integer division and remainder, and the recursive greatest common
    divisor the gallery uses to reduce an aspect ratio. */
module Numbers {

  function Abs(x: int): (r: nat)
    ensures r == x || r == -x
  {
    if x < 0 then -x else x
  }

  /** Java's `/` on int: the quotient is truncated toward zero. */
  function JavaDiv(a: int, b: int): (q: int)
    requires b != 0
    ensures a >= 0 && b > 0 ==> q == a / b
  {
    if (a >= 0) == (b > 0) then Abs(a) / Abs(b) else -(Abs(a) / Abs(b))
  }

  /** Java's `%` on int: the remainder takes the sign of the dividend and
      completes the truncating quotient. */
  function JavaRem(a: int, b: int): (r: int)
    requires b != 0
    ensures Abs(r) < Abs(b)
    ensures a >= 0 ==> r >= 0
    ensures a <= 0 ==> r <= 0
    ensures a == JavaDiv(a, b) * b + r
  {
    if a >= 0 then Abs(a) % Abs(b) else -(Abs(a) % Abs(b))
  }

  /** `gcd(a, b) = b == 0 ? a : gcd(b, a % b)`. */
  function Gcd(a: int, b: int): int
    decreases Abs(b)
  {
    if b == 0 then a else Gcd(b, JavaRem(a, b))
  }

  function Scaled(d: int, k: int): int { d * k }

  /** d divides n. */
  ghost predicate Divides(d: int, n: int) {
    exists k :: Scaled(d, k) == n
  }

  lemma DividesSum(d: int, b: int, r: int, q: int)
    requires Divides(d, b) && Divides(d, r)
    ensures Divides(d, q * b + r)
  {
    var kb :| Scaled(d, kb) == b;
    var kr :| Scaled(d, kr) == r;
    assert Scaled(d, q * kb + kr) == q * b + r;
  }

  lemma DividesDifference(d: int, a: int, b: int, q: int)
    requires Divides(d, a) && Divides(d, b)
    ensures Divides(d, a - q * b)
  {
    var ka :| Scaled(d, ka) == a;
    var kb :| Scaled(d, kb) == b;
    assert Scaled(d, ka - q * kb) == a - q * b;
  }

  /** The recursion terminates for all inputs (its measure is |b|) and the
      result divides both arguments. */
  lemma {:induction false} GcdDividesBoth(a: int, b: int)
    ensures Divides(Gcd(a, b), a) && Divides(Gcd(a, b), b)
    decreases Abs(b)
  {
    var g := Gcd(a, b);
    if b == 0 {
      assert Scaled(a, 1) == a && Scaled(a, 0) == 0;
    } else {
      var r := JavaRem(a, b);
      GcdDividesBoth(b, r);
      DividesSum(g, b, r, JavaDiv(a, b));
    }
  }

  /** Every common divisor of a and b divides their gcd. */
  lemma {:induction false} CommonDivisorDividesGcd(d: int, a: int, b: int)
    requires Divides(d, a) && Divides(d, b)
    ensures Divides(d, Gcd(a, b))
    decreases Abs(b)
  {
    if b != 0 {
      var r := JavaRem(a, b);
      DividesDifference(d, a, b, JavaDiv(a, b));
      assert a - JavaDiv(a, b) * b == r;
      CommonDivisorDividesGcd(d, b, r);
    }
  }

  /** For non-negative arguments, not both zero, the gcd is positive. */
  lemma {:induction false} GcdPositive(a: int, b: int)
    requires a >= 0 && b >= 0 && (a > 0 || b > 0)
    ensures Gcd(a, b) > 0
    decreases b
  {
    if b != 0 {
      GcdPositive(b, JavaRem(a, b));
    }
  }

  /** Multiplying by a positive factor keeps the order. */
  lemma MulMonotone(a: int, b: int, c: int)
    requires a <= b && c > 0
    ensures a * c <= b * c
  {
  }

  /** A positive divisor of a positive number is no larger than it. */
  lemma DivisorBounded(d: int, n: int)
    requires d > 0 && n > 0 && Divides(d, n)
    ensures d <= n
  {
    var k :| Scaled(d, k) == n;
    if k <= 0 {
      MulMonotone(k, 0, d);
    } else {
      MulMonotone(1, k, d);
    }
  }

  /** Division by a positive divisor is exact. */
  lemma ExactQuotient(d: int, n: int)
    requires d > 0 && Divides(d, n)
    ensures (n / d) * d == n
  {
    var k :| Scaled(d, k) == n;
    var q := n / d;
    var m := n % d;
    assert n == q * d + m && 0 <= m < d;
    assert (k - q) * d == m;
    if k - q >= 1 {
      MulMonotone(1, k - q, d);
    } else if k - q <= -1 {
      MulMonotone(k - q, -1, d);
    }
  }

  /** A divisor of x, times g, divides x times g. */
  lemma DividesScaled(d: int, x: int, g: int)
    requires Divides(d, x)
    ensures Divides(d * g, x * g)
  {
    var k :| Scaled(d, k) == x;
    assert Scaled(d * g, k) == x * g;
  }

  /** The two parts of a reduced width:height ratio. */
  function ReducedRatio(w: int, h: int): (r: (int, int))
    requires Gcd(w, h) != 0
  {
    (JavaDiv(w, Gcd(w, h)), JavaDiv(h, Gcd(w, h)))
  }

  /** Dividing positive sides by a positive common divisor keeps them positive
      and in proportion. */
  lemma QuotientsProportional(g: int, w: int, h: int)
    requires g > 0 && w > 0 && h > 0 && Divides(g, w) && Divides(g, h)
    ensures w / g > 0 && h / g > 0
    ensures (w / g) * g == w && (h / g) * g == h
    ensures (w / g) * h == (h / g) * w
  {
    ExactQuotient(g, w);
    ExactQuotient(g, h);
    var x := w / g;
    var y := h / g;
    assert x * h == y * w by {
      calc {
        x * h;
        x * (y * g);
        y * (x * g);
        y * w;
      }
    }
  }

  /** Once the gcd is divided out, no common factor is left. */
  lemma QuotientsCoprime(w: int, h: int, x: int, y: int)
    requires w > 0 && h > 0 && x > 0 && y > 0
    requires Gcd(w, h) > 0 && x * Gcd(w, h) == w && y * Gcd(w, h) == h
    ensures Gcd(x, y) == 1
  {
    var g := Gcd(w, h);
    GcdPositive(x, y);
    var g2 := Gcd(x, y);
    GcdDividesBoth(x, y);
    DividesScaled(g2, x, g);
    DividesScaled(g2, y, g);
    CommonDivisorDividesGcd(g2 * g, w, h);
    MulMonotone(1, g2, g);
    DivisorBounded(g2 * g, g);
    if g2 >= 2 {
      MulMonotone(2, g2, g);
    }
  }

  /** For positive sides, the reduced ratio is positive, proportional to
      w:h, and its parts have no common factor. */
  lemma ReducedRatioCoprime(w: int, h: int)
    requires w > 0 && h > 0
    ensures Gcd(w, h) > 0
    ensures var (x, y) := ReducedRatio(w, h);
            x > 0 && y > 0 && x * h == y * w && Gcd(x, y) == 1
  {
    GcdPositive(w, h);
    GcdDividesBoth(w, h);
    var g := Gcd(w, h);
    QuotientsProportional(g, w, h);
    QuotientsCoprime(w, h, w / g, h / g);
  }

  /** The gcd is zero exactly when both arguments are zero; that is the
      only case in which dividing by it throws. */
  lemma GcdZeroIff(a: int, b: int)
    ensures Gcd(a, b) == 0 <==> a == 0 && b == 0
  {
    if Gcd(a, b) == 0 {
      GcdDividesBoth(a, b);
      var ka :| Scaled(0, ka) == a;
      var kb :| Scaled(0, kb) == b;
    }
  }
}
