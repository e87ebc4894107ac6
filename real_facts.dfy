/** Small facts about real multiplication, division and `.Floor` that the
    solver does not find unaided. Each is stated over plain variables so that
    a caller instantiates it with the exact terms of its own goal. */
module RealFacts {

  lemma DivMul(x: real, y: real)
    requires 0.0 < y
    ensures (x / y) * y == x
  {
  }

  lemma DivZero(a: real, d: real)
    requires a == 0.0 && d != 0.0
    ensures a / d == 0.0
  {
  }

  lemma DivShift(x: real, y: real)
    requires 0.0 < y
    ensures (x + y) / y == x / y + 1.0
  {
    assert (x + y) / y == x / y + y / y;
  }

  lemma DivBelowOne(x: real, y: real)
    requires 0.0 <= x < y
    ensures (x / y).Floor == 0
  {
    DivMonoLt(x, y, y);
    assert y / y == 1.0;
    assert 0.0 <= x / y;
  }

  lemma MulMonoLe(a: real, b: real, y: real)
    requires 0.0 < y && a <= b
    ensures a * y <= b * y
  {
  }

  lemma MulMonoLt(a: real, b: real, y: real)
    requires 0.0 < y && a < b
    ensures a * y < b * y
  {
  }

  lemma MulCongruent(a: real, b: real, y: real)
    requires a == b
    ensures a * y == b * y
  {
  }

  lemma Distribute(f: real, y: real)
    ensures (f + 1.0) * y == f * y + y
  {
  }

  /** The truncated quotient times the divisor lies within one divisor below
      a non-negative dividend. */
  lemma FloorBounds(x: real, y: real)
    requires 0.0 <= x && 0.0 < y
    ensures ((x / y).Floor as real) * y <= x < ((x / y).Floor as real) * y + y
  {
    DivMul(x, y);
    MulMonoLe((x / y).Floor as real, x / y, y);
    MulMonoLt(x / y, (x / y).Floor as real + 1.0, y);
    Distribute((x / y).Floor as real, y);
  }

  lemma MulDivCancel(a: real, y: real)
    requires 0.0 < y
    ensures (a * y) / y == a
  {
  }

  lemma DivMonoLt(a: real, b: real, y: real)
    requires 0.0 < y && a < b
    ensures a / y < b / y
  {
  }

  lemma MulNonNegative(a: real, y: real)
    requires 0.0 <= a && 0.0 < y
    ensures 0.0 <= a * y
  {
  }

  lemma IntAtMostFloor(k: int, r: real)
    requires (k as real) <= r
    ensures k <= r.Floor
  {
  }

  /** The only whole multiple of `y` strictly between `-y` and `y` is 0. */
  lemma SmallMultipleIsZero(d: int, y: real, e: real)
    requires 0.0 < y && (d as real) * y == e && -y < e < y
    ensures d == 0
  {
    if 1 <= d {
      MulMonoLe(1.0, d as real, y);
    } else if d <= -1 {
      MulMonoLe(d as real, -1.0, y);
    }
  }
}
