/** How far a held input carries a character, told from the raw axes, the speed and the time: on the
    server (crates/simulation/src/movement.rs) and in the client's prediction
    (apps/protocol-client/src/prediction.rs). */
module HeldDisplacement {
  import opened MachineInts
  import opened CarriedDivision
  import opened Movement
  import R = Reconciliation
  import P = Prediction

  /** `d` millimetres along one axis are what `speed` for `time` out of `perSecond` to the second gives:
      for an input within scale, less than one short of speed times the axis's share of full scale; for
      any other, at most the speed times the axis over the true magnitude, and short of it by less than
      one and two full-scale units of speed. */
  predicate Travelled(speed: nat, time: nat, perSecond: nat, raw: int, squaredMagnitude: int, d: int) {
    && SameSign(raw, d)
    && if squaredMagnitude <= 0x7FFF * 0x7FFF then
         Abs(d) * (0x7FFF * perSecond) <= Abs(raw) * (speed * time) < (Abs(d) + 1) * (0x7FFF * perSecond)
       else
         var least := Abs(d) * perSecond;
         var most := (Abs(d) + 1) * (0x7FFF * perSecond) + 2 * (speed * time);
         var exact := Abs(raw) * (speed * time);
         && (least * least) * squaredMagnitude <= exact * exact
         && (exact * exact) * (0x7FFF * 0x7FFF) < (most * most) * squaredMagnitude
  }

  lemma StrictScaledSquares(a: nat, b: nat, sq: nat)
    requires a < b && 0 < sq
    ensures (a * a) * sq < (b * b) * sq
  {
    SquareMonotone(a, b);
    StrictProductOrder(a * a, b * b, sq);
  }

  /** Squares of products, in the order used below. */
  lemma SquareScaled(a: nat, b: nat, sq: int)
    ensures ((a * b) * (a * b)) * sq == ((a * a) * sq) * (b * b)
  {
    SquareOfProduct(a, b);
  }

  lemma NeverFurther(speedTime: nat, perSecond: nat, raw: int, out: int, sq: nat, d: int)
    requires 0 < sq && (out * out) * sq <= (raw * raw) * (0x7FFF * 0x7FFF)
    requires Abs(d) * (0x7FFF * perSecond) <= Abs(out) * speedTime
    ensures ((Abs(d) * perSecond) * (Abs(d) * perSecond)) * sq <= (Abs(raw) * speedTime) * (Abs(raw) * speedTime)
  {
    var least, t2 := Abs(d) * perSecond, speedTime * speedTime;
    assert Abs(d) * (0x7FFF * perSecond) == 0x7FFF * least;
    SquareOfAbs(out);
    SquareOfAbs(raw);
    ScaledChain(least, Abs(out) * speedTime, Abs(out), speedTime, sq);
    ProductOrder(t2, (out * out) * sq, (raw * raw) * (0x7FFF * 0x7FFF));
    SquareOfProduct(Abs(raw), speedTime);
    CancelScale(least * least * sq, raw * raw, t2);
  }

  lemma ScaledChain(least: nat, moved: nat, out: nat, speedTime: nat, sq: nat)
    requires 0x7FFF * least <= moved == out * speedTime
    ensures (0x7FFF * 0x7FFF) * (least * least * sq) <= (speedTime * speedTime) * ((out * out) * sq)
  {
    SquareMonotone(0x7FFF * least, moved);
    ProductOrder(sq, (0x7FFF * least) * (0x7FFF * least), moved * moved);
    SquareScaled(0x7FFF, least, sq);
    SquareScaled(out, speedTime, sq);
    ScaledCommutes(least * least, sq);
  }

  lemma ScaledCommutes(a: int, b: int)
    ensures ((0x7FFF * 0x7FFF) * b) * a == (0x7FFF * 0x7FFF) * (a * b)
  {
  }

  lemma CancelScale(a: int, b: int, c: int)
    requires (0x7FFF * 0x7FFF) * a <= c * (b * (0x7FFF * 0x7FFF))
    ensures a <= b * c
  {
    assert c * (b * (0x7FFF * 0x7FFF)) == (0x7FFF * 0x7FFF) * (b * c);
  }

  lemma NotMuchShorter(speedTime: nat, den: nat, raw: int, out: int, sq: nat, d: int)
    requires 0 < sq && (raw * raw) * (0x7FFF * 0x7FFF) < ((Abs(out) + 2) * (Abs(out) + 2)) * sq
    requires Abs(out) * speedTime < (Abs(d) + 1) * den
    ensures var most := (Abs(d) + 1) * den + 2 * speedTime;
            ((Abs(raw) * speedTime) * (Abs(raw) * speedTime)) * (0x7FFF * 0x7FFF) < (most * most) * sq
  {
    var most, t2 := (Abs(d) + 1) * den + 2 * speedTime, speedTime * speedTime;
    assert (Abs(out) + 2) * speedTime == Abs(out) * speedTime + 2 * speedTime;
    StrictScaledSquares((Abs(out) + 2) * speedTime, most, sq);
    SquareScaled(Abs(out) + 2, speedTime, sq);
    ProductOrder(t2, (raw * raw) * (0x7FFF * 0x7FFF), ((Abs(out) + 2) * (Abs(out) + 2)) * sq);
    SquareOfAbs(raw);
    SquareScaled(Abs(raw), speedTime, 0x7FFF * 0x7FFF);
  }

  /** One axis of a held input, from its normalised axis. */
  lemma AxisTravels(speed: nat, time: nat, perSecond: nat, raw: int, out: int, sq: nat, d: int)
    requires 0 < perSecond && SameSign(raw, out)
    requires if sq <= 0x7FFF * 0x7FFF then out == raw else AxisScaled(raw, out, sq)
    requires d == Quot(out * (speed * time), 0x7FFF * perSecond)
    ensures Travelled(speed, time, perSecond, raw, sq, d)
  {
    var st, den := speed * time, 0x7FFF * perSecond;
    QuotientBrackets(out * st, den);
    QuotSign(out * st, den);
    if st > 0 {
      SignedProduct(out, st);
      AbsProduct(out, st);
    }
    if sq > 0x7FFF * 0x7FFF {
      NeverFurther(st, perSecond, raw, out, sq, d);
      NotMuchShorter(st, den, raw, out, sq, d);
    }
  }

  /** Both axes of a held input. */
  predicate HeldTravels(speed: nat, time: nat, perSecond: nat, input: MovementInput, moved: Vector) {
    var squared := input.axisX * input.axisX + input.axisY * input.axisY;
    && Travelled(speed, time, perSecond, input.axisX, squared, moved.x)
    && Travelled(speed, time, perSecond, input.axisY, squared, moved.y)
  }

  lemma Reassociate(speed: int, axis: int, time: int)
    ensures speed * axis * time == axis * (speed * time)
  {
  }

  lemma InputTravels(speed: nat, time: nat, perSecond: nat, input: MovementInput, moved: Vector)
    requires 0 < perSecond
    requires var (x, y) := NormalizedAxes(input);
             && moved.x == Quot(speed * x * time, 0x7FFF * perSecond)
             && moved.y == Quot(speed * y * time, 0x7FFF * perSecond)
    ensures HeldTravels(speed, time, perSecond, input, moved)
  {
    var (x, y) := NormalizedAxes(input);
    var squared := input.axisX * input.axisX + input.axisY * input.axisY;
    AxisSquareBound(input.axisX);
    AxisSquareBound(input.axisY);
    NormalizedAxesNormalize(input);
    NormalizedAxisRange(input);
    Reassociate(speed, x, time);
    Reassociate(speed, y, time);
    AxisTravels(speed, time, perSecond, input.axisX, x, squared, moved.x);
    AxisTravels(speed, time, perSecond, input.axisY, y, squared, moved.y);
  }

  /** The server: `k` ticks of one input from rest. */
  lemma HeldTicks(rules: MovementRules, input: MovementInput, k: nat)
    ensures var run := TickRun(rules, P.Repeat(input, k), Vector(0, 0));
            run.Ok? && HeldTravels(rules.speedMmPerSecond, k, rules.tickRateHz, input, run.value.delta)
  {
    var (x, y) := NormalizedAxes(input);
    TickRunIsCarriedRun(rules, P.Repeat(input, k), Vector(0, 0));
    P.HeldNumerators(rules, R.MoveIntent(0, input.axisX, input.axisY), k);
    P.RepeatedRun(rules.Denominator(), rules.speedMmPerSecond * x, k);
    P.RepeatedRun(rules.Denominator(), rules.speedMmPerSecond * y, k);
    var moved := TickRun(rules, P.Repeat(input, k), Vector(0, 0)).value.delta;
    InputTravels(rules.speedMmPerSecond, k, rules.tickRateHz, input, moved);
  }

  /** The client: one segment, for its duration or the longest time an input is held, in microseconds. */
  lemma HeldSegment(p: P.Predictor, segment: R.ReplaySegment)
    ensures HeldTravels(p.profile.speedMmPerSecond, Min(segment.durationUs, p.maxInputLifetimeUs), 1_000_000,
                        MovementInput(segment.intent.axisX, segment.intent.axisY), P.Displacement(p, [segment]))
  {
    var (speed, time) := (p.profile.speedMmPerSecond, P.ClampedDuration(p, segment));
    var n := P.SegmentNumerator(p, segment);
    assert P.NumeratorsX(p, [segment]) == [n.x] && P.NumeratorsY(p, [segment]) == [n.y];
    RunOnce(P.DENOMINATOR, 0, n.x);
    RunOnce(P.DENOMINATOR, 0, n.y);
    InputTravels(speed, time, 1_000_000, P.InputOf(segment.intent), P.Displacement(p, [segment]));
  }
}
