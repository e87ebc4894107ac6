/** The arbitrary-precision numeric kernel: the circular constant, sine and
    cosine by truncated Taylor series, Newton's n-th root and the exact
    factorial. Values are exact reals; the 100- and 200-digit decimal rounding
    of the program is not modelled. The loops of sine, cosine and the root
    have no bound in the program, so each method here takes a `fuel` bound and
    reports running out of it as a failure. */
module PreciseMath {
  import opened Wrappers
  import opened RealFacts

  /** The 240-digit decimal value of pi that `pi()` returns. */
  function Pi(): (r: real)
    ensures 3.14159 < r < 3.14160
  {
    3.141592653589793238462643383279502884197169399375105820974944592307816406286208998628034825342117067982148086513282306647093844609550582231725359408128481117450284102701938521105559644622948954930381964428810975665933446128475648233786783165
  }

  /** A series term at or below this magnitude stops sine and cosine. */
  const SeriesThreshold: real := 1e-200

  /** Successive Newton iterates closer than this stop the root. */
  const RootTolerance: real := 1e-201

  function Abs(x: real): real {
    if x < 0.0 then -x else x
  }

  // ---------------------------------------------------------------------
  // Factorial and powers

  /** `factorial(n)`: exact recursion with `factorial(0) == 1`. The value is
      never zero, so dividing a series term by it is always defined. */
  function Factorial(n: nat): (r: nat)
    ensures 1 <= r
    ensures n <= r
  {
    if n == 0 then 1 else n * Factorial(n - 1)
  }

  /** `x ** k` for a non-negative integer exponent. */
  function Pow(x: real, k: nat): real {
    if k == 0 then 1.0 else x * Pow(x, k - 1)
  }

  /** `(-1) ** e` for a non-negative integer `e`. */
  function MinusOnePower(e: nat): real {
    if e % 2 == 0 then 1.0 else -1.0
  }

  lemma {:induction false} PowNonZero(x: real, k: nat)
    requires x != 0.0
    ensures Pow(x, k) != 0.0
  {
    if k > 0 {
      PowNonZero(x, k - 1);
    }
  }

  lemma {:induction false} PowOfOne(k: nat)
    ensures Pow(1.0, k) == 1.0
  {
    if k > 0 {
      PowOfOne(k - 1);
    }
  }

  // ---------------------------------------------------------------------
  // Angle reduction

  /** The integer quotient of `x / y` rounded toward zero, as Python's
      `Decimal` division-with-remainder takes it. */
  function TruncatedQuotient(x: real, y: real): int
    requires 0.0 < y
  {
    if 0.0 <= x then (x / y).Floor else -((-x) / y).Floor
  }

  /** `q` whole periods of length `y`. */
  function Multiple(q: int, y: real): real {
    (q as real) * y
  }

  /** `x % y` on `Decimal` values: the remainder after removing the truncated
      quotient. Unlike `%` on floats it keeps the sign of the dividend, so the
      result lies strictly between `-y` and `y`. */
  function DecimalRemainder(x: real, y: real): (r: real)
    requires 0.0 < y
    ensures -y < r < y
    ensures 0.0 <= x ==> 0.0 <= r
    ensures x <= 0.0 ==> r <= 0.0
    ensures exists q: int :: x == Multiple(q, y) + r
  {
    FloorBounds(if 0.0 <= x then x else -x, y);
    var r := x - (TruncatedQuotient(x, y) as real) * y;
    assert x == Multiple(TruncatedQuotient(x, y), y) + r;
    r
  }

  /** `q` full turns, `q * 2 * pi()`. */
  function Turns(q: int): real {
    Multiple(q, 2.0 * Pi())
  }

  /** The range, the sign and the congruence determine the remainder: any
      `r` with those three properties is `DecimalRemainder(x, y)`. */
  lemma RemainderUnique(x: real, y: real, q: int, r: real)
    requires 0.0 < y && -y < r < y
    requires 0.0 <= x ==> 0.0 <= r
    requires x <= 0.0 ==> r <= 0.0
    requires x == Multiple(q, y) + r
    ensures r == DecimalRemainder(x, y)
  {
    var q' := TruncatedQuotient(x, y);
    var r' := DecimalRemainder(x, y);
    assert x == Multiple(q', y) + r';
    assert Multiple(q, y) - Multiple(q', y) == ((q - q') as real) * y;
    if 0.0 <= x {
      assert 0.0 <= r' < y && 0.0 <= r < y;
    } else {
      assert -y < r' <= 0.0 && -y < r <= 0.0;
    }
    SmallMultipleIsZero(q - q', y, r' - r);
  }

  /** `θ % (2 * pi())`, the first line of `sin` and of `cos`. */
  function ReduceAngle(theta: real): (r: real)
    ensures -2.0 * Pi() < r < 2.0 * Pi()
    ensures 0.0 <= theta ==> 0.0 <= r
    ensures theta <= 0.0 ==> r <= 0.0
    ensures exists q: int :: theta == Turns(q) + r
  {
    var q := TruncatedQuotient(theta, 2.0 * Pi());
    assert theta == Turns(q) + DecimalRemainder(theta, 2.0 * Pi());
    DecimalRemainder(theta, 2.0 * Pi())
  }

  /** An angle already inside the open interval (-2pi, 2pi) is left as it is. */
  lemma ReduceAngleInRange(theta: real)
    requires -2.0 * Pi() < theta < 2.0 * Pi()
    ensures ReduceAngle(theta) == theta
  {
    var y := 2.0 * Pi();
    if 0.0 <= theta {
      DivBelowOne(theta, y);
    } else {
      DivBelowOne(-theta, y);
    }
  }

  /** Adding one full period to a non-negative angle does not change its
      reduction. */
  lemma ReduceAnglePeriodic(theta: real)
    requires 0.0 <= theta
    ensures ReduceAngle(theta + 2.0 * Pi()) == ReduceAngle(theta)
  {
    RemainderPeriodic(theta, 2.0 * Pi());
  }

  /** Subtracting one full period from a non-positive angle does not change
      its reduction either. */
  lemma ReduceAnglePeriodicNegative(theta: real)
    requires theta <= 0.0
    ensures ReduceAngle(theta - 2.0 * Pi()) == ReduceAngle(theta)
  {
    RemainderPeriodicNegative(theta, 2.0 * Pi());
  }

  lemma RemainderPeriodicNegative(x: real, y: real)
    requires x <= 0.0 && 0.0 < y
    ensures DecimalRemainder(x - y, y) == DecimalRemainder(x, y)
  {
    DivShift(-x, y);
    assert -(x - y) == -x + y;
    assert TruncatedQuotient(x - y, y) == TruncatedQuotient(x, y) - 1;
    MulCongruent(TruncatedQuotient(x - y, y) as real, TruncatedQuotient(x, y) as real - 1.0, y);
    Distribute(TruncatedQuotient(x, y) as real - 1.0, y);
  }

  lemma RemainderPeriodic(x: real, y: real)
    requires 0.0 <= x && 0.0 < y
    ensures DecimalRemainder(x + y, y) == DecimalRemainder(x, y)
  {
    DivShift(x, y);
    assert TruncatedQuotient(x + y, y) == TruncatedQuotient(x, y) + 1;
    MulCongruent(TruncatedQuotient(x + y, y) as real, TruncatedQuotient(x, y) as real + 1.0, y);
    Distribute(TruncatedQuotient(x, y) as real, y);
  }

  // ---------------------------------------------------------------------
  // Taylor series for sine and cosine

  /** Term `k` of the series, `(-1) ** (k // 2) * θ ** k / factorial(k)`: odd
      `k` for sine, even `k` for cosine. */
  function Term(theta: real, k: nat): real {
    MinusOnePower(k / 2) * Pow(theta, k) / (Factorial(k) as real)
  }

  /** The `j`-th term the loop meets when it starts at index `first` and
      steps the index by two. */
  function TermAt(theta: real, first: nat, j: nat): real {
    Term(theta, first + 2 * j)
  }

  /** The sum of the first `m` terms met from index `first`. */
  function PartialSum(theta: real, first: nat, m: nat): real {
    if m == 0 then 0.0 else PartialSum(theta, first, m - 1) + TermAt(theta, first, m - 1)
  }

  /** The loop stops after adding exactly `m` terms: term `m` is the first one
      whose magnitude is at most the threshold. */
  ghost predicate StopsAt(theta: real, first: nat, m: nat) {
    && Abs(TermAt(theta, first, m)) <= SeriesThreshold
    && forall j :: 0 <= j < m ==> SeriesThreshold < Abs(TermAt(theta, first, j))
  }

  /** There is at most one stopping point, so the sum returned is determined by
      the angle. */
  lemma StopsAtUnique(theta: real, first: nat, m1: nat, m2: nat)
    requires StopsAt(theta, first, m1) && StopsAt(theta, first, m2)
    ensures m1 == m2
  {
  }

  /** The loop shared by `sin` and `cos`: starting from the term at index
      `first`, add the pending term while it exceeds the threshold, step the
      index by two and recompute the term from its closed form. */
  method SumSeries(theta: real, first: nat, firstTerm: real, fuel: nat)
    returns (result: real, count: nat, converged: bool)
    requires firstTerm == Term(theta, first)
    ensures count <= fuel
    ensures result == PartialSum(theta, first, count)
    ensures forall j :: 0 <= j < count ==> SeriesThreshold < Abs(TermAt(theta, first, j))
    ensures converged <==> Abs(TermAt(theta, first, count)) <= SeriesThreshold
    ensures !converged ==> count == fuel
  {
    result := 0.0;
    var term := firstTerm;
    var i := first;
    count := 0;
    while count < fuel && SeriesThreshold < Abs(term)
      invariant count <= fuel
      invariant i == first + 2 * count
      invariant term == TermAt(theta, first, count)
      invariant result == PartialSum(theta, first, count)
      invariant forall j :: 0 <= j < count ==> SeriesThreshold < Abs(TermAt(theta, first, j))
    {
      result := result + term;
      assert result == PartialSum(theta, first, count + 1);
      i := i + 2;
      term := MinusOnePower(i / 2) * Pow(theta, i) / (Factorial(i) as real);
      assert term == TermAt(theta, first, count + 1);
      count := count + 1;
    }
    converged := Abs(term) <= SeriesThreshold;
  }

  lemma FirstSineTerm(theta: real)
    ensures Term(theta, 1) == theta
  {
    assert Pow(theta, 1) == theta * Pow(theta, 0);
  }

  lemma FirstCosineTerm(theta: real)
    ensures Term(theta, 0) == 1.0
  {
  }

  /** `sin(θ)`: reduce the angle, then sum the odd terms starting from `θ`
      itself. When it returns a value, that value is the partial sum up to
      the first term at or below the threshold; it fails only when the first
      `fuel + 1` terms all exceed the threshold. */
  method Sin(theta: real, fuel: nat) returns (r: Option<real>)
    ensures r.Some? ==> exists m: nat :: m <= fuel && StopsAt(ReduceAngle(theta), 1, m)
                                     && r.value == PartialSum(ReduceAngle(theta), 1, m)
    ensures r.None? ==> forall j :: 0 <= j <= fuel ==> SeriesThreshold < Abs(TermAt(ReduceAngle(theta), 1, j))
  {
    var reduced := ReduceAngle(theta);
    FirstSineTerm(reduced);
    var result, count, converged := SumSeries(reduced, 1, reduced, fuel);
    if converged {
      assert StopsAt(reduced, 1, count);
      r := Some(result);
    } else {
      r := None;
    }
  }

  /** `cos(θ)`: reduce the angle, then sum the even terms starting from 1. */
  method Cos(theta: real, fuel: nat) returns (r: Option<real>)
    ensures r.Some? ==> exists m: nat :: m <= fuel && StopsAt(ReduceAngle(theta), 0, m)
                                     && r.value == PartialSum(ReduceAngle(theta), 0, m)
    ensures r.None? ==> forall j :: 0 <= j <= fuel ==> SeriesThreshold < Abs(TermAt(ReduceAngle(theta), 0, j))
  {
    var reduced := ReduceAngle(theta);
    FirstCosineTerm(reduced);
    var result, count, converged := SumSeries(reduced, 0, 1.0, fuel);
    if converged {
      assert StopsAt(reduced, 0, count);
      r := Some(result);
    } else {
      r := None;
    }
  }

  /** At angle zero the sine series stops before adding anything, so `sin(0)`
      is exactly 0 (by `StopsAtUnique` this is the only stopping point). */
  lemma SineAtZero()
    ensures StopsAt(ReduceAngle(0.0), 1, 0)
    ensures PartialSum(ReduceAngle(0.0), 1, 0) == 0.0
  {
    ReduceAngleInRange(0.0);
    FirstSineTerm(0.0);
  }

  /** At angle zero the cosine series adds the leading 1 and stops at the next
      term, so `cos(0)` is exactly 1. */
  lemma CosineAtZero()
    ensures StopsAt(ReduceAngle(0.0), 0, 1)
    ensures PartialSum(ReduceAngle(0.0), 0, 1) == 1.0
  {
    ReduceAngleInRange(0.0);
    FirstCosineTerm(0.0);
    assert TermAt(0.0, 0, 1) == 0.0 by {
      assert Pow(0.0, 2) == 0.0 * Pow(0.0, 1);
    }
    assert StopsAt(0.0, 0, 1);
    assert PartialSum(0.0, 0, 1) == PartialSum(0.0, 0, 0) + TermAt(0.0, 0, 0);
  }

  // ---------------------------------------------------------------------
  // Newton's method for the n-th root

  datatype RootError =
    | UnsupportedDegree  // n < 1: the first iterate mixes float and Decimal and raises
    | ZeroIterate        // x0 == 0: Decimal raises on 0 ** 0 or on the division by f'(x0) == 0
    | NotConverged       // the fuel ran out before two iterates came within the tolerance

  /** One Newton step `x0 - f(x0) / f'(x0)` for `f(x) = x ** n - value`. The
      new iterate is where the tangent line of `f` at `x0` crosses zero. */
  function NewtonStep(n: nat, value: real, x0: real): (x: real)
    requires 1 <= n && x0 != 0.0
    ensures Pow(x0, n) - value + (n as real) * Pow(x0, n - 1) * (x - x0) == 0.0
  {
    PowNonZero(x0, n - 1);
    NewtonStepSolvesTangent(Pow(x0, n) - value, (n as real) * Pow(x0, n - 1), x0);
    x0 - (Pow(x0, n) - value) / ((n as real) * Pow(x0, n - 1))
  }

  lemma NewtonStepSolvesTangent(f: real, df: real, x0: real)
    requires df != 0.0
    ensures f + df * ((x0 - f / df) - x0) == 0.0
  {
  }

  /** The iteration of `root` from the current iterate `x0`, with at most
      `fuel` further steps. */
  function NewtonFrom(n: nat, value: real, x0: real, fuel: nat): Result<real, RootError>
    requires 1 <= n
    decreases fuel
  {
    if fuel == 0 then Failure(NotConverged)
    else if x0 == 0.0 then Failure(ZeroIterate)
    else
      var x := NewtonStep(n, value, x0);
      if Abs(x - x0) < RootTolerance then Success(x) else NewtonFrom(n, value, x, fuel - 1)
  }

  /** `root(n, value)`: Newton's method from `x0 = 1`, stopping at the first
      iterate within the tolerance of its predecessor. */
  method Root(n: int, value: real, fuel: nat) returns (r: Result<real, RootError>)
    ensures n < 1 ==> r == Failure(UnsupportedDegree)
    ensures 1 <= n ==> r == NewtonFrom(n, value, 1.0, fuel)
  {
    if n < 1 {
      return Failure(UnsupportedDegree);
    }
    var x0 := 1.0;
    var steps := 0;
    while steps < fuel
      invariant steps <= fuel
      invariant NewtonFrom(n, value, x0, fuel - steps) == NewtonFrom(n, value, 1.0, fuel)
    {
      if x0 == 0.0 {
        return Failure(ZeroIterate);
      }
      var x := NewtonStep(n, value, x0);
      if Abs(x - x0) < RootTolerance {
        return Success(x);
      }
      x0 := x;
      steps := steps + 1;
    }
    return Failure(NotConverged);
  }

  /** The `k`-th iterate of Newton's method from `x0`; a zero iterate, where
      the program raises, is kept at zero. */
  ghost function Iterate(n: nat, value: real, x0: real, k: nat): real
    requires 1 <= n
  {
    if k == 0 then x0
    else
      var p := Iterate(n, value, x0, k - 1);
      if p == 0.0 then 0.0 else NewtonStep(n, value, p)
  }

  /** Step `k` is the first one shorter than the tolerance, and no iterate up
      to `k` is zero. */
  ghost predicate FirstShortStep(n: nat, value: real, x0: real, k: nat)
    requires 1 <= n
  {
    && (forall j :: 0 <= j <= k ==> Iterate(n, value, x0, j) != 0.0)
    && (forall j :: 0 <= j < k ==> RootTolerance <= Abs(Iterate(n, value, x0, j + 1) - Iterate(n, value, x0, j)))
    && Abs(Iterate(n, value, x0, k + 1) - Iterate(n, value, x0, k)) < RootTolerance
  }

  /** Starting one step later is the same sequence shifted by one. */
  lemma {:induction false} IterateShift(n: nat, value: real, x0: real, j: nat)
    requires 1 <= n && x0 != 0.0
    ensures Iterate(n, value, x0, j + 1) == Iterate(n, value, NewtonStep(n, value, x0), j)
    decreases j
  {
    if j > 0 {
      IterateShift(n, value, x0, j - 1);
    }
  }

  /** A returned root is the iterate just after the first step shorter than
      the tolerance, reached within the fuel. */
  lemma {:induction false} NewtonFromStops(n: nat, value: real, x0: real, fuel: nat, x: real)
    requires 1 <= n
    requires NewtonFrom(n, value, x0, fuel) == Success(x)
    ensures exists k: nat :: k < fuel && FirstShortStep(n, value, x0, k) && x == Iterate(n, value, x0, k + 1)
    decreases fuel
  {
    assert fuel != 0 && x0 != 0.0;
    var next := NewtonStep(n, value, x0);
    assert Iterate(n, value, x0, 1) == next;
    if Abs(next - x0) < RootTolerance {
      assert FirstShortStep(n, value, x0, 0);
    } else {
      NewtonFromStops(n, value, next, fuel - 1, x);
      var k: nat :| k < fuel - 1 && FirstShortStep(n, value, next, k) && x == Iterate(n, value, next, k + 1);
      FirstShortStepShift(n, value, x0, k);
    }
  }

  /** A long first step followed by a first short step `k` of the sequence
      from the next iterate is a first short step `k + 1` from `x0`. */
  lemma FirstShortStepShift(n: nat, value: real, x0: real, k: nat)
    requires 1 <= n && x0 != 0.0
    requires RootTolerance <= Abs(NewtonStep(n, value, x0) - x0)
    requires FirstShortStep(n, value, NewtonStep(n, value, x0), k)
    ensures FirstShortStep(n, value, x0, k + 1)
    ensures Iterate(n, value, x0, k + 2) == Iterate(n, value, NewtonStep(n, value, x0), k + 1)
  {
    var next := NewtonStep(n, value, x0);
    forall j | 0 <= j <= k + 1
      ensures Iterate(n, value, x0, j + 1) == Iterate(n, value, next, j)
    {
      IterateShift(n, value, x0, j);
    }
    assert Iterate(n, value, x0, 1) == next;
    forall j | 0 <= j <= k + 1
      ensures Iterate(n, value, x0, j) != 0.0
    {
      if j > 0 {
        assert Iterate(n, value, x0, j) == Iterate(n, value, next, j - 1);
      }
    }
    forall j | 0 <= j < k + 1
      ensures RootTolerance <= Abs(Iterate(n, value, x0, j + 1) - Iterate(n, value, x0, j))
    {
      assert Iterate(n, value, x0, j + 1) == Iterate(n, value, next, j);
      if j > 0 {
        assert Iterate(n, value, x0, j) == Iterate(n, value, next, j - 1);
        assert RootTolerance <= Abs(Iterate(n, value, next, j) - Iterate(n, value, next, j - 1));
      } else {
        assert Iterate(n, value, x0, 0) == x0;
      }
    }
  }

  /** An exact root is a fixed point: the iteration started there returns it
      after one step. */
  lemma NewtonFixedPoint(n: nat, value: real, x0: real, fuel: nat)
    requires 1 <= n && x0 != 0.0 && 1 <= fuel
    requires Pow(x0, n) == value
    ensures NewtonFrom(n, value, x0, fuel) == Success(x0)
  {
    PowNonZero(x0, n - 1);
    DivZero(Pow(x0, n) - value, (n as real) * Pow(x0, n - 1));
    assert NewtonStep(n, value, x0) == x0;
  }

  /** For `value == -(n - 1)` the first Newton step from 1 lands exactly on 0,
      and the next step raises: `root(2, -1)` fails this way rather than
      looping. */
  lemma FirstStepHitsZero(n: nat, fuel: nat)
    requires 1 <= n && 2 <= fuel
    ensures NewtonFrom(n, -((n - 1) as real), 1.0, fuel) == Failure(ZeroIterate)
  {
    var value := -((n - 1) as real);
    PowOfOne(n);
    PowOfOne(n - 1);
    assert Pow(1.0, n) - value == n as real;
    assert (n as real) * Pow(1.0, n - 1) == n as real;
    assert NewtonStep(n, value, 1.0) == 0.0;
  }

  /** Every positive degree of root of 1 is found at the starting point 1. */
  lemma RootOfOne(n: nat, fuel: nat)
    requires 1 <= n && 1 <= fuel
    ensures NewtonFrom(n, 1.0, 1.0, fuel) == Success(1.0)
  {
    PowOfOne(n);
    NewtonFixedPoint(n, 1.0, 1.0, fuel);
  }
}
