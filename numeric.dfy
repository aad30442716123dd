/** Exact arithmetic helpers shared by the whole model: Python's `int()` truncation,
    numpy's `clip`, the uint8 store, numpy's uint8 wrap-around on differences, the
    abstract exponential kernel, and weighted sums with their convexity bounds. */
module Numeric {

  /** The value an operation returns, or the error it raises. */
  datatype Result<T> = Success(value: T) | Failure(msg: string)

  /** Python's `int(x)` on a float: truncation toward zero. */
  function TruncToInt(r: real): (n: int)
    ensures r >= 0.0 ==> n as real <= r < n as real + 1.0
    ensures r < 0.0 ==> n as real - 1.0 < r <= n as real
    ensures 0.0 <= r ==> 0 <= n
  {
    if r >= 0.0 then r.Floor else -((-r).Floor)
  }

  /** `max(0, min(255, n))` on a Python int. */
  function ClampByte(n: int): (b: int)
    ensures 0 <= b <= 255
    ensures 0 <= n <= 255 ==> b == n
    ensures n < 0 ==> b == 0
    ensures n > 255 ==> b == 255
  {
    if n < 0 then 0 else if n > 255 then 255 else n
  }

  /** `np.clip(x, lo, hi)` on one element. */
  function Clip(x: real, lo: real, hi: real): (r: real)
    requires lo <= hi
    ensures lo <= r <= hi
    ensures lo <= x <= hi ==> r == x
    ensures x < lo ==> r == lo
    ensures x > hi ==> r == hi
  {
    if x < lo then lo else if x > hi then hi else x
  }

  /** Storing a non-negative float into a numpy uint8 array truncates it. */
  function StoreByte(r: real): (b: int)
    requires 0.0 <= r
    ensures 0 <= b && b as real <= r < b as real + 1.0
  {
    r.Floor
  }

  lemma {:induction false} StoreByteBetween(r: real, lo: int, hi: int)
    requires 0 <= lo && lo as real <= r <= hi as real
    ensures lo <= StoreByte(r) <= hi
  {
  }

  /** `((a - b) ** 2)` evaluated on numpy uint8 values: both the subtraction and the
      square wrap modulo 256. */
  function WrapSq(a: int, b: int): (t: int)
    ensures 0 <= t < 256
    ensures a == b ==> t == 0
  {
    var d := (a - b) % 256;
    (d * d) % 256
  }

  lemma {:induction false} SquareModNeg(d: int)
    requires 0 < d < 256
    ensures ((256 - d) * (256 - d)) % 256 == (d * d) % 256
  {
    var e := 256 - d;
    assert e * e == d * d + 256 * (256 - 2 * d);
    ModAddMultiple(d * d, 256 - 2 * d);
  }

  lemma {:induction false} ModAddMultiple(x: int, k: int)
    ensures (x + 256 * k) % 256 == x % 256
  {
    var q, r := x / 256, x % 256;
    assert x + 256 * k == 256 * (q + k) + r;
  }

  /** The wrapped square is symmetric in its two operands, so every weight built on it is. */
  lemma {:induction false} WrapSqSymmetric(a: int, b: int)
    ensures WrapSq(a, b) == WrapSq(b, a)
  {
    var d1 := (a - b) % 256;
    var d2 := (b - a) % 256;
    if d1 == 0 {
      assert (a - b) == 256 * ((a - b) / 256);
      assert b - a == 256 * (-((a - b) / 256));
      ModAddMultiple(0, -((a - b) / 256));
      assert d2 == 0;
    } else {
      assert a - b == 256 * ((a - b) / 256) + d1;
      assert b - a == 256 * (-((a - b) / 256) - 1) + (256 - d1);
      ModAddMultiple(256 - d1, -((a - b) / 256) - 1);
      assert d2 == 256 - d1;
      SquareModNeg(d1);
    }
  }

  /** The exponential as the model sees it: exp(0) = 1, exp is positive and strictly
      increasing. Floating-point underflow and overflow are not modelled. */
  ghost predicate ExpLike(exp: real -> real)
  {
    exp(0.0) == 1.0 &&
    (forall x: real :: 0.0 < exp(x)) &&
    (forall x: real, y: real :: x < y ==> exp(x) < exp(y))
  }

  /** On non-positive arguments the exponential lies in (0, 1]. */
  lemma {:induction false} ExpAtMostOne(exp: real -> real, x: real)
    requires ExpLike(exp) && x <= 0.0
    ensures 0.0 < exp(x) <= 1.0
  {
    if x < 0.0 {
      assert exp(x) < exp(0.0);
    }
  }

  /** On positive arguments the exponential exceeds 1. */
  lemma {:induction false} ExpAboveOne(exp: real -> real, x: real)
    requires ExpLike(exp) && 0.0 < x
    ensures 1.0 < exp(x)
  {
    assert exp(0.0) < exp(x);
  }

  /** A square root as the model sees it: on non-negative arguments it is the
      non-negative number whose square is the argument. */
  ghost predicate SqrtLike(sqrt: real -> real)
  {
    forall x: real :: 0.0 <= x ==> 0.0 <= sqrt(x) && sqrt(x) * sqrt(x) == x
  }

  /** A non-negative number whose square is at most x is at most sqrt(x). */
  lemma {:induction false} SqrtAtLeast(sqrt: real -> real, x: real, y: real)
    requires SqrtLike(sqrt) && 0.0 <= y && y * y <= x
    ensures y <= sqrt(x)
  {
    if sqrt(x) < y {
      SquareStrict(sqrt(x), y);
    }
  }

  lemma {:induction false} SquareStrict(a: real, b: real)
    requires 0.0 <= a < b
    ensures a * a < b * b
  {
    assert b * b - a * a == (b - a) * (b + a);
    MulStrict(b + a, 0.0, b - a);
  }

  /** Squaring preserves the order of non-negative numbers, both ways. */
  lemma {:induction false} SquareOrder(a: real, b: real)
    requires 0.0 <= a && 0.0 <= b
    ensures a < b <==> a * a < b * b
  {
    if a < b {
      SquareStrict(a, b);
    } else {
      MulMonotone(b, b, a);
      MulMonotone(a, b, a);
    }
  }

  /** Squares of values in [0, b] lie in [0, b * b]. */
  lemma {:induction false} SquareAtMost(a: real, b: real)
    requires 0.0 <= a <= b
    ensures 0.0 <= a * a <= b * b
  {
    MulMonotone(a, 0.0, a);
    if a < b {
      SquareOrder(a, b);
    }
  }

  /** `np.sqrt(x) < tol`, compared on squares: a negative x has a nan root, and nan
      compares false. */
  predicate RootBelow(x: real, tol: real)
  {
    0.0 <= x && 0.0 < tol && x < tol * tol
  }

  /** For a non-negative x, the squared test agrees with the square-root test, both
      ways. */
  lemma {:induction false} RootBelowIsRootTest(sqrt: real -> real, x: real, tol: real)
    requires SqrtLike(sqrt) && 0.0 <= x
    ensures RootBelow(x, tol) <==> sqrt(x) < tol
  {
    var s := sqrt(x);
    assert 0.0 <= s && s * s == x;
    if 0.0 <= tol {
      SquareOrder(s, tol);
    }
  }

  /** The product of two factors in (0, 1] lies in (0, 1]. */
  lemma {:induction false} UnitProduct(a: real, b: real)
    requires 0.0 < a <= 1.0 && 0.0 < b <= 1.0
    ensures 0.0 < a * b <= 1.0
  {
    assert a * b <= 1.0 * b;
  }

  /** Two kernel factors with non-positive exponents multiply to a value in (0, 1]. */
  lemma {:induction false} FactorsInUnit(spatial: real -> real, tonal: real -> real, x: real, y: real)
    requires ExpLike(spatial) && ExpLike(tonal) && x <= 0.0 && y <= 0.0
    ensures 0.0 < spatial(x) * tonal(y) <= 1.0
  {
    ExpAtMostOne(spatial, x);
    ExpAtMostOne(tonal, y);
    UnitProduct(spatial(x), tonal(y));
  }

  /** Sum of a sequence of reals, accumulated left to right. */
  function Sum(s: seq<real>): real
  {
    if s == [] then 0.0 else Sum(s[..|s| - 1]) + s[|s| - 1]
  }

  /** Sum of w[k] * v[k]. */
  function Dot(ws: seq<real>, vs: seq<real>): real
    requires |ws| == |vs|
  {
    if ws == [] then 0.0
    else Dot(ws[..|ws| - 1], vs[..|vs| - 1]) + ws[|ws| - 1] * vs[|vs| - 1]
  }

  ghost predicate NonNegative(ws: seq<real>)
  {
    forall k :: 0 <= k < |ws| ==> 0.0 <= ws[k]
  }

  /** A sum of squares is never negative. */
  lemma {:induction false} SquaresNonNegative(d: seq<real>)
    ensures 0.0 <= Dot(d, d)
  {
    if d != [] {
      SquaresNonNegative(d[..|d| - 1]);
      assert 0.0 <= d[|d| - 1] * d[|d| - 1];
    }
  }

  ghost predicate Within(vs: seq<real>, lo: real, hi: real)
  {
    forall k :: 0 <= k < |vs| ==> lo <= vs[k] <= hi
  }

  /** A sum of non-negative terms is at least each of its terms. */
  lemma {:induction false} SumAtLeastTerm(ws: seq<real>, k: nat)
    requires NonNegative(ws) && k < |ws|
    ensures ws[k] <= Sum(ws)
  {
    var n := |ws| - 1;
    SumNonNegative(ws[..n]);
    if k < n {
      SumAtLeastTerm(ws[..n], k);
    }
  }

  lemma {:induction false} SumNonNegative(ws: seq<real>)
    requires NonNegative(ws)
    ensures 0.0 <= Sum(ws)
  {
    if ws != [] {
      SumNonNegative(ws[..|ws| - 1]);
    }
  }

  /** With non-negative weights, the weighted sum of values in [lo, hi] lies between
      lo and hi times the total weight. */
  lemma {:induction false} DotBounds(ws: seq<real>, vs: seq<real>, lo: real, hi: real)
    requires |ws| == |vs| && NonNegative(ws) && Within(vs, lo, hi)
    ensures lo * Sum(ws) <= Dot(ws, vs) <= hi * Sum(ws)
  {
    DotAtLeast(ws, vs, lo, hi);
    DotAtMost(ws, vs, lo, hi);
  }

  lemma {:induction false} DotAtLeast(ws: seq<real>, vs: seq<real>, lo: real, hi: real)
    requires |ws| == |vs| && NonNegative(ws) && Within(vs, lo, hi)
    ensures lo * Sum(ws) <= Dot(ws, vs)
  {
    if ws != [] {
      var n := |ws| - 1;
      var ws', vs' := ws[..n], vs[..n];
      assert NonNegative(ws') && Within(vs', lo, hi);
      DotAtLeast(ws', vs', lo, hi);
      MulMonotone(ws[n], lo, vs[n]);
      Distribute(lo, Sum(ws'), ws[n]);
    }
  }

  lemma {:induction false} DotAtMost(ws: seq<real>, vs: seq<real>, lo: real, hi: real)
    requires |ws| == |vs| && NonNegative(ws) && Within(vs, lo, hi)
    ensures Dot(ws, vs) <= hi * Sum(ws)
  {
    if ws != [] {
      var n := |ws| - 1;
      var ws', vs' := ws[..n], vs[..n];
      assert NonNegative(ws') && Within(vs', lo, hi);
      DotAtMost(ws', vs', lo, hi);
      MulMonotone(ws[n], vs[n], hi);
      Distribute(hi, Sum(ws'), ws[n]);
    }
  }

  lemma {:induction false} DotBoundsStep(lo: real, hi: real, s: real, d: real, w: real, v: real)
    requires lo * s <= d <= hi * s && 0.0 <= w && lo <= v <= hi
    ensures lo * (s + w) <= d + w * v <= hi * (s + w)
  {
    MulMonotone(w, lo, v);
    MulMonotone(w, v, hi);
    Distribute(lo, s, w);
    Distribute(hi, s, w);
  }

  lemma {:induction false} Distribute(c: real, x: real, y: real)
    ensures c * (x + y) == c * x + c * y
  {
  }

  lemma {:induction false} MulMonotone(c: real, x: real, y: real)
    requires 0.0 <= c && x <= y
    ensures c * x <= c * y
  {
    assert c * y - c * x == c * (y - x);
  }

  /** A weighted sum of copies of one value is that value times the total weight. */
  lemma {:induction false} DotConstant(ws: seq<real>, vs: seq<real>, c: real)
    requires |ws| == |vs| && Within(vs, c, c)
    ensures Dot(ws, vs) == c * Sum(ws)
  {
    if ws != [] {
      var n := |ws| - 1;
      DotConstant(ws[..n], vs[..n], c);
    }
  }

  /** A normalised weighted mean with positive total weight lies between any bounds of
      its values, and equals the value when all values agree. */
  lemma {:induction false} WeightedMeanBounds(ws: seq<real>, vs: seq<real>, lo: real, hi: real)
    requires |ws| == |vs| && NonNegative(ws) && Within(vs, lo, hi) && Sum(ws) > 0.0
    ensures lo <= Dot(ws, vs) / Sum(ws) <= hi
  {
    DotBounds(ws, vs, lo, hi);
    QuotientAtLeast(lo, Dot(ws, vs), Sum(ws));
    QuotientAtMost(hi, Dot(ws, vs), Sum(ws));
  }

  lemma {:induction false} QuotientAtLeast(lo: real, d: real, s: real)
    requires 0.0 < s && lo * s <= d
    ensures lo <= d / s
  {
    assert d / s - lo == (d - lo * s) / s;
    DivSign(d - lo * s, s);
  }

  lemma {:induction false} QuotientAtMost(hi: real, d: real, s: real)
    requires 0.0 < s && d <= hi * s
    ensures d / s <= hi
  {
    assert hi - d / s == (hi * s - d) / s;
    DivSign(hi * s - d, s);
  }

  lemma {:induction false} MulStrict(c: real, x: real, y: real)
    requires 0.0 < c && x < y
    ensures x * c < y * c
  {
    assert y * c - x * c == c * (y - x);
  }

  /** Scaling a positive number by a factor above 1 makes it larger. */
  lemma {:induction false} GrowsByFactor(x: real, y: real)
    requires 0.0 < x && 1.0 < y
    ensures x < x * y
  {
    assert x * y - x == x * (y - 1.0);
  }

  /** If m <= s / n < m + 1 for a positive n, then m n <= s < (m + 1) n. */
  lemma {:induction false} QuotientBracket(s: real, n: real, m: real)
    requires 0.0 < n && m <= s / n < m + 1.0
    ensures m * n <= s < (m + 1.0) * n
  {
    var q, m1 := s / n, m + 1.0;
    assert q * n == s;
    assert m * n <= s by {
      MulMonotone(n, m, q);
      assert n * m == m * n && n * q == q * n;
    }
    assert s < m1 * n by {
      MulStrict(n, q, m1);
    }
  }

  /** `2 * a**2`, the denominator of a Gaussian exponent with bandwidth a. */
  function Spread(a: real): real
  {
    2.0 * (a * a)
  }

  /** The denominator is positive whenever the bandwidth is not zero. */
  lemma {:induction false} SpreadPositive(a: real)
    requires a != 0.0
    ensures 0.0 < Spread(a)
  {
    assert 0.0 <= Spread(a);
    assert Spread(a) / (2.0 * a) == a;
  }

  /** Dividing by a positive number keeps a strict order. */
  lemma {:induction false} QuotientStrict(n: real, m: real, d: real)
    requires 0.0 < d && n < m
    ensures n / d < m / d
  {
    DivSign(m - n, d);
    assert m / d - n / d == (m - n) / d;
  }

  /** Dividing by a positive number keeps the sign. */
  lemma {:induction false} DivSign(n: real, d: real)
    requires 0.0 < d
    ensures 0.0 <= n <==> 0.0 <= n / d
    ensures n == 0.0 <==> n / d == 0.0
  {
    var q := n / d;
    assert q * d == n;
    if q < 0.0 {
      MulStrict(d, q, 0.0);
    } else if q > 0.0 {
      MulStrict(d, 0.0, q);
    }
  }

  // ---------------------------------------------------------------------------
  // Dense vectors (numpy float64 arrays) and their elementwise operations.

  /** `np.zeros(n)`. */
  function Zeros(n: nat): (z: seq<real>)
    ensures |z| == n && Within(z, 0.0, 0.0)
  {
    seq(n, k => 0.0)
  }

  /** Elementwise `u - v`. */
  function Sub(u: seq<real>, v: seq<real>): (r: seq<real>)
    requires |u| == |v|
    ensures |r| == |u|
  {
    seq(|u|, k requires 0 <= k < |u| => u[k] - v[k])
  }

  /** `np.sum(diff ** 2)` is the same for a - b and b - a. */
  lemma {:induction false} SquaredNormSwap(a: seq<real>, b: seq<real>)
    requires |a| == |b|
    ensures Dot(Sub(a, b), Sub(a, b)) == Dot(Sub(b, a), Sub(b, a))
  {
    if a != [] {
      var n := |a| - 1;
      assert Sub(a, b)[..n] == Sub(a[..n], b[..n]);
      assert Sub(b, a)[..n] == Sub(b[..n], a[..n]);
      SquaredNormSwap(a[..n], b[..n]);
      assert (a[n] - b[n]) * (a[n] - b[n]) == (b[n] - a[n]) * (b[n] - a[n]);
    }
  }

  /** Elementwise `v + a * u`. */
  function Axpy(a: real, u: seq<real>, v: seq<real>): (r: seq<real>)
    requires |u| == |v|
    ensures |r| == |v|
  {
    seq(|v|, k requires 0 <= k < |v| => v[k] + a * u[k])
  }

  /** `v.clip(0, 255)`: every element lands in [0, 255], and elements already there are
      kept. */
  function ClipVector(v: seq<real>): (r: seq<real>)
    ensures |r| == |v| && Within(r, 0.0, 255.0)
    ensures Within(v, 0.0, 255.0) ==> r == v
  {
    seq(|v|, k requires 0 <= k < |v| => Clip(v[k], 0.0, 255.0))
  }
}
