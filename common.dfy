// Shared vocabulary of the lap-time simulators: optional values and
// error results, the corner radius (the source's np.inf marks a straight),
// the numpy-style min/max/clip helpers, and the brake/accelerate/coast
// hysteresis rule that every lap integrator applies.

module Common {

  datatype Option<T> = None | Some(value: T)

  datatype Result<T, E> = Success(value: T) | Failure(error: E)

  /** A segment's radius in metres. The source stores np.inf for a straight. */
  datatype Radius = Straight | Corner(r: real)

  function Max(a: real, b: real): (m: real)
    ensures m >= a && m >= b && (m == a || m == b)
  {
    if a >= b then a else b
  }

  function Min(a: real, b: real): (m: real)
    ensures m <= a && m <= b && (m == a || m == b)
  {
    if a <= b then a else b
  }

  function Abs(x: real): (r: real)
    ensures r >= 0.0 && (r == x || r == -x)
  {
    if x >= 0.0 then x else -x
  }

  /** numpy.clip(x, lo, hi), which is min(max(x, lo), hi). */
  function Clip(x: real, lo: real, hi: real): (r: real)
    ensures lo <= hi ==> lo <= r <= hi
    ensures lo <= x <= hi ==> r == x
  {
    Min(Max(x, lo), hi)
  }

  /** Python's int() on a float: truncation toward zero. */
  function Trunc(x: real): (n: int)
    ensures x >= 0.0 ==> n >= 0 && n as real <= x < n as real + 1.0
    ensures x < 0.0 ==> n <= 0 && n as real - 1.0 < x <= n as real
  {
    if x >= 0.0 then x.Floor else -((-x).Floor)
  }

  function NatToString(n: nat): string
    decreases n
  {
    var digit := ['0' + (n % 10) as char];
    if n < 10 then digit else NatToString(n / 10) + digit
  }

  /** Python's str() of an int. */
  function IntToString(n: int): string
  {
    if n >= 0 then NatToString(n) else "-" + NatToString(-n)
  }

  // ---------------------------------------------------------------------
  // Non-linear arithmetic facts the solver does not find on its own.

  lemma MulNonneg(a: real, b: real)
    requires a >= 0.0 && b >= 0.0
    ensures a * b >= 0.0
  {
  }

  lemma MulPos(a: real, b: real)
    requires a > 0.0 && b > 0.0
    ensures a * b > 0.0
  {
  }

  lemma MulLeRight(a: real, b: real, c: real)
    requires a <= b && c >= 0.0
    ensures a * c <= b * c
  {
    MulNonneg(b - a, c);
  }

  lemma MulLtRight(a: real, b: real, c: real)
    requires a < b && c > 0.0
    ensures a * c < b * c
  {
    MulPos(b - a, c);
  }

  /** For non-negative numbers, comparing squares is comparing the numbers. */
  lemma SquareLess(a: real, b: real)
    requires a >= 0.0 && b >= 0.0
    ensures a < b ==> a * a < b * b
    ensures a * a < b * b ==> a < b
  {
    if a < b {
      calc {
        a * a;
      <=  { MulNonneg(b - a, a); }
        b * a;
      <   { MulPos(b - a, b); }
        b * b;
      }
    } else {
      calc {
        b * b;
      <=  { MulNonneg(a - b, b); }
        a * b;
      <=  { MulNonneg(a - b, a); }
        a * a;
      }
    }
  }

  /** A quotient by a positive number is bounded below by lo when the dividend is at least lo times it. */
  lemma DivAtLeast(s: real, c: real, lo: real)
    requires c > 0.0 && lo * c <= s
    ensures lo <= s / c
  {
    var q := s / c;
    assert q * c == s;
    if q < lo {
      MulLtRight(q, lo, c);
      assert false;
    }
  }

  lemma DivAtMost(s: real, c: real, hi: real)
    requires c > 0.0 && s <= hi * c
    ensures s / c <= hi
  {
    var q := s / c;
    assert q * c == s;
    if q > hi {
      MulLtRight(hi, q, c);
      assert false;
    }
  }

  /** Dividing by a positive number keeps the order. */
  lemma DivMonotone(a: real, b: real, c: real)
    requires a <= b && c > 0.0
    ensures a / c <= b / c
  {
    assert b / c * c == b;
    DivAtMost(a, c, b / c);
  }

  lemma DivStrictMonotone(a: real, b: real, c: real)
    requires a < b && c > 0.0
    ensures a / c < b / c
  {
    DivMonotone(a, b, c);
    assert a / c * c == a && b / c * c == b;
  }

  /** a / m b is not negative for non-negative a and b and a positive m: a squared corner speed. */
  lemma QuotientTimesNonneg(a: real, m: real, b: real)
    requires a >= 0.0 && m > 0.0 && b >= 0.0
    ensures a / m * b >= 0.0
  {
    DivAtLeast(a, m, 0.0);
    MulNonneg(a / m, b);
  }

  /** m a h / l has the sign of a when m, h and l are positive (the load transfer's sign). */
  lemma SignOfQuotient(m: real, a: real, h: real, l: real)
    requires m > 0.0 && h > 0.0 && l > 0.0
    ensures a == 0.0 ==> (m * a * h) / l == 0.0
    ensures a > 0.0 ==> (m * a * h) / l > 0.0
    ensures a < 0.0 ==> (m * a * h) / l < 0.0
  {
    if a > 0.0 {
      MulPos(m, a);
      MulPos(m * a, h);
      DivStrictMonotone(0.0, m * a * h, l);
    } else if a < 0.0 {
      MulPos(m, -a);
      MulPos(m * -a, h);
      assert m * a * h == -(m * -a * h);
      DivStrictMonotone(m * a * h, 0.0, l);
    }
  }

  lemma WeightedSumAtLeast(a: real, b: real, x: real, y: real, lo: real)
    requires x > 0.0 && y > 0.0 && lo <= a && lo <= b
    ensures lo * (x + y) <= a * x + b * y
  {
    calc {
      lo * (x + y);
      lo * x + lo * y;
    <=  { MulLeRight(lo, a, x); MulLeRight(lo, b, y); }
      a * x + b * y;
    }
  }

  lemma WeightedSumAtMost(a: real, b: real, x: real, y: real, hi: real)
    requires x > 0.0 && y > 0.0 && a <= hi && b <= hi
    ensures a * x + b * y <= hi * (x + y)
  {
    calc {
      a * x + b * y;
    <=  { MulLeRight(a, hi, x); MulLeRight(b, hi, y); }
      hi * x + hi * y;
      hi * (x + y);
    }
  }

  /** A weighted mean with positive weights lies between the bounds of what it averages. */
  lemma WeightedMeanBounds(a: real, b: real, x: real, y: real, lo: real, hi: real)
    requires x > 0.0 && y > 0.0 && lo <= a <= hi && lo <= b <= hi
    ensures lo <= (a * x + b * y) / (x + y) <= hi
  {
    WeightedSumAtLeast(a, b, x, y, lo);
    WeightedSumAtMost(a, b, x, y, hi);
    DivAtLeast(a * x + b * y, x + y, lo);
    DivAtMost(a * x + b * y, x + y, hi);
  }

  lemma SquareLe(a: real, b: real)
    requires 0.0 <= a <= b
    ensures a * a <= b * b
  {
    calc {
      a * a;
    <=  { MulNonneg(b - a, a); }
      b * a;
    <=  { MulNonneg(b - a, b); }
      b * b;
    }
  }

  lemma SquareNonneg(x: real)
    ensures x * x >= 0.0
  {
    if x >= 0.0 {
      MulNonneg(x, x);
    } else {
      MulNonneg(-x, -x);
    }
  }

  lemma SquarePos(x: real)
    requires x != 0.0
    ensures x * x > 0.0
  {
    if x > 0.0 {
      MulPos(x, x);
    } else {
      MulPos(-x, -x);
    }
  }

  // ---------------------------------------------------------------------
  // Control modes of the lap integrators.

  datatype Mode = Braking | Accelerating | Coasting

  /**
   * A corner speed limit. Unbounded stands for the np.inf limit of an
   * infinite-radius segment; Bounded carries the SQUARE of the limit so
   * that no square root is needed. A negative square stands for the
   * square root of a negative number, NaN in numpy.
   */
  datatype SpeedLimit = Unbounded | Bounded(sq: real)

  /**
   * The hysteresis rule: brake above 110 % of the corner limit, accelerate
   * below 95 % of it, coast in between. Both comparisons are false against
   * NaN, so a NaN limit coasts; against inf only the second holds.
   */
  function SelectMode(v: real, limit: SpeedLimit): Mode
    requires v >= 0.0
  {
    match limit
    case Unbounded => Accelerating
    case Bounded(sq) =>
      if sq < 0.0 then Coasting
      else if v * v > 1.21 * sq then Braking
      else if v * v < 0.9025 * sq then Accelerating
      else Coasting
  }

  /** The square-free rule agrees with the source's comparison of v against 1.1 L and 0.95 L. */
  lemma SelectModeMatchesRule(v: real, limit: real)
    requires v >= 0.0 && limit >= 0.0
    ensures SelectMode(v, Bounded(limit * limit)) ==
            if v > limit * 1.1 then Braking
            else if v < limit * 0.95 then Accelerating
            else Coasting
  {
    MulNonneg(limit, limit);
    SquareLess(limit * 1.1, v);
    SquareLess(v, limit * 0.95);
    assert (limit * 1.1) * (limit * 1.1) == 1.21 * (limit * limit);
    assert (limit * 0.95) * (limit * 0.95) == 0.9025 * (limit * limit);
  }

  /** Throttle and brake pedal positions logged for a mode: never both pressed. */
  function Pedals(m: Mode): (p: (real, real))
    ensures p.0 * p.1 == 0.0
    ensures 0.0 <= p.0 <= 1.0 && 0.0 <= p.1 <= 1.0
    ensures p.0 == 1.0 <==> m == Accelerating
    ensures p.1 == 1.0 <==> m == Braking
  {
    match m
    case Accelerating => (1.0, 0.0)
    case Braking => (0.0, 1.0)
    case Coasting => (0.0, 0.0)
  }

  /** The integrators' speed update max(0, v + a dt): never negative, and the Euler step whenever that is not. */
  function NextSpeed(velocity: real, acceleration: real, dt: real): (v: real)
    ensures v >= 0.0 && v >= velocity + acceleration * dt
    ensures v == 0.0 || v == velocity + acceleration * dt
  {
    Max(0.0, velocity + acceleration * dt)
  }

  // ---------------------------------------------------------------------
  // The integrators' clock: `time += dt` once per step, starting from 0.

  function Elapsed(n: nat, dt: real): real
  {
    if n == 0 then 0.0 else Elapsed(n - 1, dt) + dt
  }

  /** n additions of dt make n dt. */
  lemma {:induction false} ElapsedIsProduct(n: nat, dt: real)
    ensures Elapsed(n, dt) == n as real * dt
  {
    if n > 0 {
      ElapsedIsProduct(n - 1, dt);
      assert n as real * dt == (n - 1) as real * dt + dt;
    }
  }

  /** The clock reads n steps of dt. */
  predicate ReadsSteps(time: real, n: nat, dt: real)
  {
    time == n as real * dt
  }

  /** A clock advanced n times from 0 reads n steps of dt. */
  lemma ClockReadsSteps(time: real, n: nat, dt: real)
    requires time == Elapsed(n, dt)
    ensures ReadsSteps(time, n, dt)
  {
    ElapsedIsProduct(n, dt);
  }

  // ---------------------------------------------------------------------
  // Telemetry sampling: every loop appends a row when its step counter is a
  // multiple of a fixed stride.

  lemma MulAtLeast(k: int, s: int)
    requires k >= 1 && s >= 1
    ensures k * s >= s
  {
    assert k * s == (k - 1) * s + s;
    assert (k - 1) * s >= 0;
  }

  /** Integer division is determined by quotient and remainder. */
  lemma DivModUnique(n: int, s: int, q: int, r: int)
    requires s >= 1 && 0 <= r < s && n == q * s + r
    ensures n / s == q && n % s == r
  {
    var q', r' := n / s, n % s;
    assert n == q' * s + r';
    if q' > q {
      MulAtLeast(q' - q, s);
      assert false;
    } else if q' < q {
      MulAtLeast(q - q', s);
      assert false;
    }
  }

  lemma SampleCountStep(n: int, stride: int)
    requires n >= 1 && stride >= 1
    ensures n / stride == (n - 1) / stride + (if n % stride == 0 then 1 else 0)
    ensures n % stride == 0 ==> n == (n / stride) * stride
  {
    var q, r := (n - 1) / stride, (n - 1) % stride;
    if r == stride - 1 {
      DivModUnique(n, stride, q + 1, 0);
    } else {
      DivModUnique(n, stride, q, r + 1);
    }
  }

  // ---------------------------------------------------------------------
  // Sums and means of samples.

  function Sum(s: seq<real>): real
  {
    if |s| == 0 then 0.0 else Sum(s[..|s| - 1]) + s[|s| - 1]
  }

  lemma SumAppend(s: seq<real>, x: real)
    ensures Sum(s + [x]) == Sum(s) + x
  {
    assert (s + [x])[..|s|] == s;
  }

  /** np.mean: None (NaN) for no values. */
  function Mean(s: seq<real>): (m: Option<real>)
    ensures m.Some? <==> |s| > 0
    ensures m.Some? ==> m.value * |s| as real == Sum(s)
  {
    if |s| == 0 then None else Some(Sum(s) / |s| as real)
  }

  /** n values between lo and hi add up to between n lo and n hi. */
  lemma {:induction false} SumBetween(s: seq<real>, lo: real, hi: real)
    requires forall i :: 0 <= i < |s| ==> lo <= s[i] <= hi
    ensures |s| as real * lo <= Sum(s) <= |s| as real * hi
  {
    if |s| > 0 {
      var n := |s| - 1;
      SumBetween(s[..n], lo, hi);
      assert |s| as real * lo == n as real * lo + lo;
      assert |s| as real * hi == n as real * hi + hi;
    }
  }

  lemma QuotientBetween(m: real, n: real, total: real, lo: real, hi: real)
    requires n > 0.0 && m * n == total && n * lo <= total <= n * hi
    ensures lo <= m <= hi
  {
    if m < lo {
      MulLtRight(m, lo, n);
    }
    if m > hi {
      MulLtRight(hi, m, n);
    }
  }

  /** The mean of values between lo and hi is between lo and hi. */
  lemma MeanWithin(s: seq<real>, lo: real, hi: real)
    requires |s| > 0
    requires forall i :: 0 <= i < |s| ==> lo <= s[i] <= hi
    ensures lo <= Mean(s).value <= hi
  {
    SumBetween(s, lo, hi);
    QuotientBetween(Mean(s).value, |s| as real, Sum(s), lo, hi);
  }

  lemma DivPlusDivisor(x: int, s: int)
    requires s >= 1
    ensures (x + s) / s == x / s + 1
  {
    var q, r := x / s, x % s;
    assert x == q * s + r;
    assert x + s == (q + 1) * s + r;
    DivModUnique(x + s, s, q + 1, r);
  }

  lemma MulPred(k: int, s: int)
    ensures (k - 1) * s + s == k * s
  {
  }
}
