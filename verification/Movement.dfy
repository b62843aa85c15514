/** Input normalisation and per-tick integration (crates/simulation/src/movement.rs). */
module Movement {
  import opened MachineInts
  import opened CarriedDivision

  const AXIS_SCALE: int := 0x7FFF

  /** An accepted input: `from_axes` rejects the asymmetric minimum of `i16`. */
  type Axis = a: int | -0x7FFF <= a <= 0x7FFF

  datatype MovementInput = MovementInput(axisX: Axis, axisY: Axis)

  function FromAxes(axisX: i16, axisY: i16): (r: Option<MovementInput>)
    ensures r.None? <==> axisX == -0x8000 || axisY == -0x8000
  {
    if axisX == -0x8000 || axisY == -0x8000 then None else Some(MovementInput(axisX, axisY))
  }

  // ----- Integer square roots -----

  ghost predicate IsFloorRoot(value: nat, root: nat) {
    root * root <= value < (root + 1) * (root + 1)
  }

  ghost predicate IsCeilRoot(value: nat, root: nat) {
    value <= root * root && (root > 0 ==> (root - 1) * (root - 1) < value)
  }

  lemma SquareMonotone(a: nat, b: nat)
    ensures a <= b ==> a * a <= b * b
    ensures a < b ==> a * a < b * b
  {
    if a < b {
      assert a * a <= a * b <= b * b;
      assert a * b == a * (b - 1) + a;
    }
  }

  lemma CeilRootUnique(value: nat, r: nat, s: nat)
    requires IsCeilRoot(value, r) && IsCeilRoot(value, s)
    ensures r == s
  {
    if r > 0 { SquareMonotone(s, r - 1); }
    if s > 0 { SquareMonotone(r, s - 1); }
  }

  lemma ProductBelowMeanSquared(a: int, b: int)
    ensures 4 * (a * b) <= (a + b) * (a + b)
  {
    var d := a - b;
    assert 0 <= d * d;
    assert (a + b) * (a + b) == d * d + 4 * (a * b);
  }

  /** The guess is not below the floor root of `value`. */
  ghost predicate NotBelowRoot(value: nat, guess: nat) {
    value < (guess + 1) * (guess + 1)
  }

  function NewtonStep(value: nat, current: nat): nat
    requires 0 < current
  {
    (current + value / current) / 2
  }

  /** One Newton step from any positive guess does not fall below the root: `value` is below
      `current * (q + 1)`, and that product is at most the square of the mean. */
  lemma NewtonStepNotBelowRoot(value: nat, current: nat)
    requires 0 < current
    ensures NotBelowRoot(value, NewtonStep(value, current))
  {
    var q := value / current;
    var next := NewtonStep(value, current);
    BelowNextMultiple(value, current);
    ProductBelowMeanSquared(current, q + 1);
    SquareMonotone(current + q + 1, 2 * (next + 1));
    DoubledSquare(next + 1);
  }

  lemma BelowNextMultiple(value: nat, current: nat)
    requires 0 < current
    ensures value < current * (value / current + 1)
  {
    var q := value / current;
    assert value == q * current + value % current;
  }

  lemma DoubledSquare(a: nat)
    ensures (2 * a) * (2 * a) == 4 * (a * a)
  {
  }

  /** A guess that Newton's step does not lower is at most the root. */
  lemma NewtonStops(value: nat, current: nat)
    requires 0 < current <= NewtonStep(value, current)
    ensures current * current <= value
  {
    var q := value / current;
    assert value == current * q + value % current;
    assert current <= q;
    ProductOrder(current, current, q);
  }

  /** The loop's opening values: the argument itself, then half of it rounded up. */
  lemma NewtonStart(value: nat)
    requires 2 <= value
    ensures value / 2 + value % 2 == NewtonStep(value, value)
    ensures NotBelowRoot(value, value)
  {
    assert value / value == 1;
    assert (value + 1) * (value + 1) == value * value + 2 * value + 1;
  }

  lemma QuotientNearGuess(value: nat, current: nat)
    requires 0 < current && NotBelowRoot(value, current)
    ensures value / current <= current + 2
  {
    var q := value / current;
    assert value == current * q + value % current;
    if current + 3 <= q {
      ProductOrder(current, current + 3, q);
      NextSquare(current);
      assert false;
    }
  }

  lemma ProductOrder(a: nat, b: nat, c: nat)
    requires b <= c
    ensures a * b <= a * c
  {
  }

  lemma NextSquare(a: nat)
    ensures (a + 1) * (a + 1) == a * (a + 2) + 1 && a * (a + 3) == a * (a + 2) + a
  {
  }

  lemma QuotientByLarge(value: u64, current: nat)
    requires 0x1_0000_0000 <= current
    ensures value / current < 0x1_0000_0000
  {
    var q := value / current;
    assert value == current * q + value % current;
    assert 0x1_0000_0000 <= q ==> 0x1_0000_0000 * 0x1_0000_0000 <= current * q;
  }

  /** The guesses the loop visits stay far enough from both ends that the `u64` sum
      `current + value / current` cannot overflow. */
  lemma NewtonSumFits(value: u64, current: nat)
    requires 0 < current <= 0x8000_0000_0000_0000 && NotBelowRoot(value, current)
    ensures current + value / current <= U64_MAX
  {
    if current < 0x1_0000_0000 {
      QuotientNearGuess(value, current);
    } else {
      QuotientByLarge(value, current);
    }
  }

  lemma NotBelowRootPositive(value: nat, guess: nat)
    requires 1 <= value && NotBelowRoot(value, guess)
    ensures 0 < guess
  {
  }

  method IntegerSqrtFloor(value: u64) returns (root: u64)
    ensures IsFloorRoot(value, root)
  {
    if value < 2 {
      return value;
    }
    var current: u64 := value;
    var next: u64 := value / 2 + value % 2;
    NewtonStart(value);
    NewtonStepNotBelowRoot(value, value);
    NotBelowRootPositive(value, next);
    while next < current
      invariant 0 < current && 0 < next
      invariant next < current ==> next <= 0x8000_0000_0000_0000
      invariant NotBelowRoot(value, current) && NotBelowRoot(value, next)
      invariant next == NewtonStep(value, current)
      decreases current
    {
      current := next;
      NewtonSumFits(value, current);
      NewtonStepNotBelowRoot(value, current);
      next := (current + value / current) / 2;
      NotBelowRootPositive(value, next);
    }
    NewtonStops(value, current);
    root := current;
  }

  method IntegerSqrtCeil(value: u64) returns (root: u64)
    ensures IsCeilRoot(value, root)
  {
    var floor := IntegerSqrtFloor(value);
    SquareMonotone(0x1_0000_0000, floor);
    if floor * floor == value {
      if floor > 0 { SquareMonotone(floor - 1, floor); }
      root := floor;
    } else {
      root := floor + 1;
    }
  }

  // ----- Axis normalisation -----

  /** Reference definition of the rounded-up root, found by counting. */
  ghost function CeilRoot(value: nat): (root: nat)
    ensures IsCeilRoot(value, root)
  {
    if value == 0 then 0
    else
      var below := CeilRoot(value - 1);
      if value <= below * below then below
      else
        assert (below + 1) * (below + 1) == below * below + 2 * below + 1;
        below + 1
  }

  function MagnitudeSquared(input: MovementInput): int {
    input.axisX * input.axisX + input.axisY * input.axisY
  }

  /** The pair of axes the integration uses. */
  ghost function NormalizedAxes(input: MovementInput): (int, int) {
    AxisSquareBound(input.axisX);
    AxisSquareBound(input.axisY);
    if MagnitudeSquared(input) <= AXIS_SCALE * AXIS_SCALE then
      (input.axisX, input.axisY)
    else
      var magnitude := CeilRoot(MagnitudeSquared(input));
      (Quot(input.axisX * AXIS_SCALE, magnitude), Quot(input.axisY * AXIS_SCALE, magnitude))
  }

  method ComputeNormalizedAxes(input: MovementInput) returns (x: int, y: int)
    ensures (x, y) == NormalizedAxes(input)
    ensures Normalizes(input, x, y)
  {
    NormalizedAxesNormalize(input);
    AxisSquareBound(input.axisX);
    AxisSquareBound(input.axisY);
    var magnitudeSquared: u64 := input.axisX * input.axisX + input.axisY * input.axisY;
    if magnitudeSquared <= AXIS_SCALE * AXIS_SCALE {
      return input.axisX, input.axisY;
    }
    var magnitude := IntegerSqrtCeil(magnitudeSquared);
    CeilRootUnique(magnitudeSquared, magnitude, CeilRoot(magnitudeSquared));
    x := Quot(input.axisX * AXIS_SCALE, magnitude);
    y := Quot(input.axisY * AXIS_SCALE, magnitude);
  }

  lemma SquareOfAbs(a: int)
    ensures 0 <= a * a == Abs(a) * Abs(a)
  {
  }

  lemma AxisSquareBound(a: Axis)
    ensures 0 <= a * a <= AXIS_SCALE * AXIS_SCALE
  {
    SquareMonotone(Abs(a), AXIS_SCALE);
    SquareOfAbs(a);
  }

  /** Truncation shrinks: a quotient times its divisor squares to no more than the dividend does. */
  lemma TruncationShrinks(a: int, m: int)
    requires 0 < m
    ensures (Quot(a, m) * m) * (Quot(a, m) * m) <= a * a
  {
    var p := Quot(a, m) * m;
    TruncationWithin(a, m);
    SquareMonotone(Abs(p), Abs(a));
    SquareOfAbs(p);
    SquareOfAbs(a);
  }

  lemma TruncationWithin(a: int, m: int)
    requires 0 < m
    ensures Abs(Quot(a, m) * m) <= Abs(a)
  {
    QuotSign(a, m);
    SignedProduct(Quot(a, m), m);
  }

  lemma SignedProduct(q: int, m: int)
    requires 0 < m
    ensures 0 <= q ==> 0 <= q * m
    ensures q <= 0 ==> q * m <= 0
  {
  }

  lemma SquareOfProduct(a: int, b: int)
    ensures (a * b) * (a * b) == (a * a) * (b * b)
  {
  }

  lemma CancelSquare(s: int, limit: int, mm: int)
    requires 0 < mm && s * mm <= limit * mm
    ensures s <= limit
  {
    if limit < s {
      StrictProductOrder(limit, s, mm);
    }
  }

  lemma StrictProductOrder(a: int, b: int, m: int)
    requires a < b && 0 < m
    ensures a * m < b * m
  {
    assert (a + 1) * m == a * m + m;
    FactorOrder(a + 1, b, m);
  }

  lemma FactorOrder(a: int, b: int, m: int)
    requires a <= b && 0 < m
    ensures a * m <= b * m
  {
  }

  lemma ScaledComponent(axis: Axis, m: int, s: int)
    requires 0 < m && s == Quot(axis * AXIS_SCALE, m)
    ensures (s * s) * (m * m) <= (axis * axis) * (AXIS_SCALE * AXIS_SCALE)
  {
    TruncationShrinks(axis * AXIS_SCALE, m);
    SquareOfProduct(s, m);
    SquareOfProduct(axis, AXIS_SCALE);
  }

  /** Normalised axes never exceed full-scale magnitude. */
  lemma NormalizedWithinScale(input: MovementInput)
    ensures var (x, y) := NormalizedAxes(input);
            x * x + y * y <= AXIS_SCALE * AXIS_SCALE
  {
    var limit := AXIS_SCALE * AXIS_SCALE;
    AxisSquareBound(input.axisX);
    AxisSquareBound(input.axisY);
    var sq := MagnitudeSquared(input);
    if sq > limit {
      var m := CeilRoot(sq);
      var (x, y) := NormalizedAxes(input);
      ScaledComponent(input.axisX, m, x);
      ScaledComponent(input.axisY, m, y);
      SumOfScaledSquares(x * x, y * y, input.axisX * input.axisX, input.axisY * input.axisY, m * m, limit);
    }
  }

  lemma SumOfScaledSquares(xx: int, yy: int, ax: int, ay: int, mm: int, limit: int)
    requires xx * mm <= ax * limit && yy * mm <= ay * limit
    requires 0 < limit && 0 < mm && ax + ay <= mm
    ensures xx + yy <= limit
  {
    assert (xx + yy) * mm == xx * mm + yy * mm;
    assert (ax + ay) * limit == ax * limit + ay * limit;
    assert (ax + ay) * limit <= mm * limit;
    CancelSquare(xx + yy, limit, mm);
  }

  lemma QuotSign(a: int, m: int)
    requires 0 < m
    ensures SameSign(a, Quot(a, m))
  {
    var q := Quot(a, m);
    assert q <= -1 ==> q * m <= -m;
    assert 1 <= q ==> m <= q * m;
  }

  /** Each normalised axis keeps the sign of the raw axis and never exceeds full scale. */
  lemma NormalizedAxisRange(input: MovementInput)
    ensures var (x, y) := NormalizedAxes(input);
            && -AXIS_SCALE <= x <= AXIS_SCALE && -AXIS_SCALE <= y <= AXIS_SCALE
            && SameSign(input.axisX, x) && SameSign(input.axisY, y)
  {
    var (x, y) := NormalizedAxes(input);
    NormalizedWithinScale(input);
    SquareOfAbs(x);
    SquareOfAbs(y);
    SquareMonotone(AXIS_SCALE + 1, Abs(x));
    SquareMonotone(AXIS_SCALE + 1, Abs(y));
    if MagnitudeSquared(input) > AXIS_SCALE * AXIS_SCALE {
      var m := CeilRoot(MagnitudeSquared(input));
      QuotSign(input.axisX * AXIS_SCALE, m);
      QuotSign(input.axisY * AXIS_SCALE, m);
    }
  }

  /** `out` is one axis of an over-scale input, cut down to full scale: with the raw axis's sign, at most
      the raw axis times full scale over the true magnitude, and less than two units short of it. */
  predicate AxisScaled(raw: int, out: int, squaredMagnitude: int) {
    && SameSign(raw, out)
    && (out * out) * squaredMagnitude <= (raw * raw) * (0x7FFF * 0x7FFF)
    && (raw * raw) * (0x7FFF * 0x7FFF) < ((Abs(out) + 2) * (Abs(out) + 2)) * squaredMagnitude
  }

  /** What normalisation means, without a root: an input within scale is itself; any other keeps its
      direction to less than two units on each axis, and its magnitude ends less than three units short
      of full scale. */
  predicate Normalizes(input: MovementInput, x: int, y: int) {
    var squared := input.axisX * input.axisX + input.axisY * input.axisY;
    if squared <= 0x7FFF * 0x7FFF then x == input.axisX && y == input.axisY
    else
      && AxisScaled(input.axisX, x, squared) && AxisScaled(input.axisY, y, squared)
      && 0x7FFC * 0x7FFC < x * x + y * y <= 0x7FFF * 0x7FFF
  }

  lemma AbsProduct(a: int, m: int)
    requires 0 < m
    ensures Abs(a * m) == Abs(a) * m
  {
    SignedProduct(a, m);
    assert (-a) * m == -(a * m);
  }

  lemma ScaledAxisSmall(out: int, axis: Axis, m: int)
    requires AXIS_SCALE < m && Abs(out) * m <= Abs(axis) * AXIS_SCALE
    ensures Abs(out) + 2 <= m
  {
    if m - 1 <= Abs(out) {
      FactorOrder(AXIS_SCALE, Abs(out), m);
      FactorOrder(Abs(axis), AXIS_SCALE, AXIS_SCALE);
      StrictProductOrder(AXIS_SCALE, m, AXIS_SCALE);
      assert false;
    }
  }

  /** Two units more, times the next smaller magnitude, are no less than one unit more times this one. */
  lemma TradeMagnitude(out: nat, m: int)
    requires out + 2 <= m
    ensures (out + 1) * m <= (out + 2) * (m - 1)
  {
    assert (out + 2) * (m - 1) == (out + 1) * m + (m - out - 2);
  }

  lemma StrictSquares(a: nat, b: nat, c: nat, sq: nat)
    requires a < b * c && c * c < sq
    ensures a * a < (b * b) * sq
  {
    SquareMonotone(a, b * c);
    SquareOfProduct(b, c);
    assert 0 < b;
    StrictProductOrder(c * c, sq, b * b);
    assert (c * c) * (b * b) == (b * b) * (c * c) && sq * (b * b) == (b * b) * sq;
  }

  lemma AxisIsScaled(axis: Axis, out: int, m: int, sq: nat)
    requires AXIS_SCALE < m && IsCeilRoot(sq, m) && out == Quot(axis * AXIS_SCALE, m)
    ensures AxisScaled(axis, out, sq)
  {
    QuotSign(axis * AXIS_SCALE, m);
    SignedProduct(axis, AXIS_SCALE);
    ScaledComponent(axis, m, out);
    ProductOrder(out * out, sq, m * m);
    AbsProduct(axis, AXIS_SCALE);
    AbsProduct(out, m);
    QuotientBrackets(axis * AXIS_SCALE, m);
    ScaledAxisSmall(out, axis, m);
    TradeMagnitude(Abs(out), m);
    StrictSquares(Abs(axis) * AXIS_SCALE, Abs(out) + 2, m - 1, sq);
    SquareOfProduct(Abs(axis), AXIS_SCALE);
    SquareOfAbs(axis);
  }

  lemma QuotientBrackets(a: int, m: int)
    requires 0 < m
    ensures Abs(Quot(a, m)) * m <= Abs(a) < (Abs(Quot(a, m)) + 1) * m
  {
    var q := Quot(a, m);
    QuotSign(a, m);
    AbsProduct(q, m);
    assert (Abs(q) + 1) * m == Abs(q) * m + m;
  }

  lemma SumOfShortSquares(u: nat, v: nat, ax: int, ay: int, sq: nat)
    requires 0 < sq && ax + ay == sq
    requires ax * (0x7FFF * 0x7FFF) < (u * u) * sq && ay * (0x7FFF * 0x7FFF) < (v * v) * sq
    ensures 0x7FFF * 0x7FFF < u * u + v * v
  {
    assert (ax + ay) * (0x7FFF * 0x7FFF) == ax * (0x7FFF * 0x7FFF) + ay * (0x7FFF * 0x7FFF);
    assert (u * u + v * v) * sq == (u * u) * sq + (v * v) * sq;
    if u * u + v * v <= 0x7FFF * 0x7FFF {
      FactorOrder(u * u + v * v, 0x7FFF * 0x7FFF, sq);
      assert false;
    }
  }

  lemma SumSquareBound(u: int, v: int)
    ensures (u + v) * (u + v) <= 2 * (u * u + v * v)
  {
    assert 0 <= (u - v) * (u - v);
  }

  lemma SquareLessTwo(u: int)
    ensures (u - 2) * (u - 2) == u * u - 4 * u + 4
  {
  }

  /** A point outside the full circle, moved two units in on each axis, is outside the circle three units
      smaller: it moves less than three along the diagonal. */
  lemma TwoUnitsIn(u: nat, v: nat)
    requires 0x7FFF * 0x7FFF < u * u + v * v
    ensures 0x7FFC * 0x7FFC < (u - 2) * (u - 2) + (v - 2) * (v - 2)
  {
    SumSquareBound(u, v);
    SquareLessTwo(u);
    SquareLessTwo(v);
    SumBelow(u * u + v * v, u + v);
  }

  lemma SumBelow(n: nat, s: nat)
    requires 0x7FFF * 0x7FFF < n && s * s <= 2 * n
    ensures 0x7FFC * 0x7FFC < n - 4 * s + 8
  {
    var k := n - 0x7FFF * 0x7FFF - 1;
    var t := 6 * 0x7FFF + k;
    assert t == n + 8 - 0x7FFC * 0x7FFC;
    SquareMonotone(t, 4 * s);
    assert (4 * s) * (4 * s) == 16 * (s * s);
    assert t * t == 36 * 0x7FFF * 0x7FFF + 12 * 0x7FFF * k + k * k;
    assert 0 <= k * k;
  }

  /** For every input. */
  lemma NormalizedAxesNormalize(input: MovementInput)
    ensures var (x, y) := NormalizedAxes(input); Normalizes(input, x, y)
  {
    AxisSquareBound(input.axisX);
    AxisSquareBound(input.axisY);
    var sq := MagnitudeSquared(input);
    if sq > AXIS_SCALE * AXIS_SCALE {
      var (x, y) := NormalizedAxes(input);
      var m := CeilRoot(sq);
      SquareMonotone(m, AXIS_SCALE);
      AxisIsScaled(input.axisX, x, m, sq);
      AxisIsScaled(input.axisY, y, m, sq);
      NormalizedWithinScale(input);
      NormalizedAxisRange(input);
      SumOfShortSquares(Abs(x) + 2, Abs(y) + 2, input.axisX * input.axisX, input.axisY * input.axisY, sq);
      TwoUnitsIn(Abs(x) + 2, Abs(y) + 2);
      SquareOfAbs(x);
      SquareOfAbs(y);
    }
  }

  /** Three and two are the least whole bounds: this input loses more than two units of magnitude. */
  lemma LosesMoreThanTwoUnits()
    ensures NormalizedAxes(MovementInput(23255, 23097)) == (23247, 23089)
    ensures 23247 * 23247 + 23089 * 23089 < 0x7FFD * 0x7FFD
  {
    var sq := 23255 * 23255 + 23097 * 23097;
    CeilRootUnique(sq, 32777, CeilRoot(sq));
  }

  /** And this one more than one unit on an axis. */
  lemma LosesMoreThanOneUnit()
    ensures NormalizedAxes(MovementInput(23171, 23170)) == (23169, 23168)
    ensures (23170 * 23170) * (23171 * 23171 + 23170 * 23170) < (23171 * 23171) * (0x7FFF * 0x7FFF)
  {
    var sq := 23171 * 23171 + 23170 * 23170;
    CeilRootUnique(sq, 32769, CeilRoot(sq));
  }

  /** The full diagonal is cut down, not stopped. */
  lemma FullDiagonal()
    ensures NormalizedAxes(MovementInput(0x7FFF, 0x7FFF)) == (23169, 23169)
  {
    var sq := 0x7FFF * 0x7FFF + 0x7FFF * 0x7FFF;
    CeilRootUnique(sq, 46340, CeilRoot(sq));
  }

  // ----- Per-tick integration -----

  datatype RulesFields = Rules(speedMmPerSecond: u32, tickRateHz: u32) {
    function Denominator(): int { AXIS_SCALE * tickRateHz }
  }

  /** `MovementRules::new` rejects a zero tick rate. */
  type MovementRules = r: RulesFields | 0 < r.tickRateHz witness Rules(1, 1)

  datatype Vector = Vector(x: int, y: int)

  datatype IntegrationError = RemainderOverflowX | RemainderOverflowY

  predicate IsRemainder(rules: MovementRules, r: Vector) {
    && -rules.Denominator() < r.x < rules.Denominator()
    && -rules.Denominator() < r.y < rules.Denominator()
  }

  ghost function Numerator(rules: MovementRules, input: MovementInput): Vector {
    var (x, y) := NormalizedAxes(input);
    Vector(rules.speedMmPerSecond * x, rules.speedMmPerSecond * y)
  }

  datatype TickOutcome = TickOutcome(delta: Vector, remainder: Vector)

  /** One tick on values: the displacement in millimetres and the remainder carried on. */
  ghost function Tick(rules: MovementRules, input: MovementInput, remainder: Vector)
    : Result<TickOutcome, IntegrationError>
  {
    var n := Numerator(rules, input);
    var nx, ny := remainder.x + n.x, remainder.y + n.y;
    if !InI64(nx) then Err(RemainderOverflowX)
    else if !InI64(ny) then Err(RemainderOverflowY)
    else
      var den := rules.Denominator();
      Ok(TickOutcome(Vector(Quot(nx, den), Quot(ny, den)), Vector(Rem(nx, den), Rem(ny, den))))
  }

  lemma NumeratorBound(rules: MovementRules, input: MovementInput)
    ensures var n := Numerator(rules, input);
            && -0x7FFF_FFFF_FFFF <= n.x <= 0x7FFF_FFFF_FFFF
            && -0x7FFF_FFFF_FFFF <= n.y <= 0x7FFF_FFFF_FFFF
  {
    NormalizedAxisRange(input);
    var (x, y) := NormalizedAxes(input);
    ProductBound(rules.speedMmPerSecond, x);
    ProductBound(rules.speedMmPerSecond, y);
  }

  lemma ProductBound(speed: u32, axis: Axis)
    ensures -0x7FFF_FFFF_FFFF <= speed * axis <= 0x7FFF_FFFF_FFFF
  {
    assert speed * axis <= speed * AXIS_SCALE;
    assert speed * -AXIS_SCALE <= speed * axis;
  }

  class MovementRemainder {
    var x: i64
    var y: i64

    constructor ()
      ensures x == 0 && y == 0
    {
      x, y := 0, 0;
    }

    constructor From(remainder: Vector)
      requires InI64(remainder.x) && InI64(remainder.y)
      ensures View() == remainder
    {
      x, y := remainder.x, remainder.y;
    }

    function View(): Vector
      reads this
    {
      Vector(x, y)
    }

    /** Advances the remainder by one tick of `input` and returns the whole millimetres moved. */
    method Integrate(rules: MovementRules, input: MovementInput) returns (r: Result<Vector, IntegrationError>)
      modifies this
      ensures match Tick(rules, input, old(View()))
        case Ok(outcome) => r == Ok(outcome.delta) && View() == outcome.remainder
        case Err(e) => r == Err(e) && View() == old(View())
    {
      var axisX, axisY := ComputeNormalizedAxes(input);
      NumeratorBound(rules, input);
      var numeratorX := x + rules.speedMmPerSecond * axisX;
      if !InI64(numeratorX) {
        return Err(RemainderOverflowX);
      }
      var numeratorY := y + rules.speedMmPerSecond * axisY;
      if !InI64(numeratorY) {
        return Err(RemainderOverflowY);
      }
      var den := rules.Denominator();
      r := Ok(Vector(Quot(numeratorX, den), Quot(numeratorY, den)));
      RemRange(numeratorX, den);
      RemRange(numeratorY, den);
      x, y := Rem(numeratorX, den), Rem(numeratorY, den);
    }
  }

  /** From a remainder that is a remainder, integration cannot overflow. */
  lemma TickNeverOverflows(rules: MovementRules, input: MovementInput, remainder: Vector)
    requires IsRemainder(rules, remainder)
    ensures Tick(rules, input, remainder).Ok?
    ensures IsRemainder(rules, Tick(rules, input, remainder).value.remainder)
  {
    NumeratorBound(rules, input);
    var n := Numerator(rules, input);
    RemRange(remainder.x + n.x, rules.Denominator());
    RemRange(remainder.y + n.y, rules.Denominator());
  }

  // ----- Whole runs of ticks -----

  /** The displacement and final remainder of a run of ticks. */
  ghost function TickRun(rules: MovementRules, inputs: seq<MovementInput>, remainder: Vector)
    : (r: Result<TickOutcome, IntegrationError>)
  {
    if inputs == [] then Ok(TickOutcome(Vector(0, 0), remainder))
    else
      match Tick(rules, inputs[0], remainder)
      case Err(e) => Err(e)
      case Ok(first) =>
        match TickRun(rules, inputs[1..], first.remainder)
        case Err(e) => Err(e)
        case Ok(rest) =>
          Ok(TickOutcome(Vector(first.delta.x + rest.delta.x, first.delta.y + rest.delta.y), rest.remainder))
  }

  ghost function NumeratorsX(rules: MovementRules, inputs: seq<MovementInput>): seq<int> {
    seq(|inputs|, i requires 0 <= i < |inputs| => Numerator(rules, inputs[i]).x)
  }

  ghost function NumeratorsY(rules: MovementRules, inputs: seq<MovementInput>): seq<int> {
    seq(|inputs|, i requires 0 <= i < |inputs| => Numerator(rules, inputs[i]).y)
  }

  /** A run of ticks never overflows and is, on each axis, a run of carried divisions. */
  lemma {:induction false} TickRunIsCarriedRun(rules: MovementRules, inputs: seq<MovementInput>, remainder: Vector)
    requires IsRemainder(rules, remainder)
    ensures var runX := Run(rules.Denominator(), remainder.x, NumeratorsX(rules, inputs));
            var runY := Run(rules.Denominator(), remainder.y, NumeratorsY(rules, inputs));
            TickRun(rules, inputs, remainder)
              == Ok(TickOutcome(Vector(runX.total, runY.total), Vector(runX.remainder, runY.remainder)))
    decreases |inputs|
  {
    if inputs != [] {
      TickNeverOverflows(rules, inputs[0], remainder);
      var first := Tick(rules, inputs[0], remainder).value;
      TickRunIsCarriedRun(rules, inputs[1..], first.remainder);
      TickIsCarried(rules, inputs[0], remainder, NumeratorsX(rules, inputs[1..]), NumeratorsY(rules, inputs[1..]));
      var n := Numerator(rules, inputs[0]);
      assert NumeratorsX(rules, inputs) == [n.x] + NumeratorsX(rules, inputs[1..]);
      assert NumeratorsY(rules, inputs) == [n.y] + NumeratorsY(rules, inputs[1..]);
    }
  }

  /** One tick is the head of a carried run. */
  lemma TickIsCarried(rules: MovementRules, input: MovementInput, remainder: Vector, restX: seq<int>, restY: seq<int>)
    requires Tick(rules, input, remainder).Ok?
    ensures var n, first, den := Numerator(rules, input), Tick(rules, input, remainder).value, rules.Denominator();
            var runX, runY := Run(den, first.remainder.x, restX), Run(den, first.remainder.y, restY);
            && Run(den, remainder.x, [n.x] + restX) == Carried(first.delta.x + runX.total, runX.remainder)
            && Run(den, remainder.y, [n.y] + restY) == Carried(first.delta.y + runY.total, runY.remainder)
  {
    var n := Numerator(rules, input);
    RunHead(rules.Denominator(), remainder.x, n.x, restX);
    RunHead(rules.Denominator(), remainder.y, n.y, restY);
  }

  /** For every input sequence: summed deltas times the denominator plus the final remainder
      equal the exact numerator sum plus the initial remainder.  Started from rest, the
      displacement is therefore always within one millimetre of the exact one. */
  lemma DisplacementLedger(rules: MovementRules, inputs: seq<MovementInput>, remainder: Vector)
    requires IsRemainder(rules, remainder)
    ensures TickRun(rules, inputs, remainder).Ok?
    ensures var run := TickRun(rules, inputs, remainder).value;
            var den := rules.Denominator();
            var exactX, exactY := Sum(NumeratorsX(rules, inputs)), Sum(NumeratorsY(rules, inputs));
            && run.delta.x * den + run.remainder.x == exactX + remainder.x
            && run.delta.y * den + run.remainder.y == exactY + remainder.y
            && IsRemainder(rules, run.remainder)
            && (remainder == Vector(0, 0) ==>
                 && Abs(run.delta.x * den - exactX) < den
                 && Abs(run.delta.y * den - exactY) < den)
  {
    TickRunIsCarriedRun(rules, inputs, remainder);
    RunLedger(rules.Denominator(), remainder.x, NumeratorsX(rules, inputs));
    RunLedger(rules.Denominator(), remainder.y, NumeratorsY(rules, inputs));
  }
}
