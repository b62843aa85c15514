/** The client-side positional predictor (apps/protocol-client/src/prediction.rs) and its
    agreement with the server's ticks. */
module Prediction {
  import opened MachineInts
  import opened CarriedDivision
  import opened Movement
  import opened Reconciliation

  const MICROS_PER_SECOND: int := 1_000_000

  const DENOMINATOR: int := AXIS_SCALE * MICROS_PER_SECOND

  datatype Profile = Profile(speedMmPerSecond: u32, simulationTickHz: u32, inputTimeoutTicks: u64)

  datatype PredictionError = TimeoutOverflow | ZeroPredictableLifetime | PositionOverflow

  datatype PredictorFields = Predictor(profile: Profile, maxInputLifetimeUs: u64)

  /** So many microseconds, and not one more, fit into so many ticks. */
  predicate Lasts(microseconds: nat, hz: nat, ticks: nat) {
    microseconds * hz <= ticks * 1_000_000 < (microseconds + 1) * hz
  }

  /** The longest time one input is predicted for: the server's input timeout. */
  function NewPredictor(profile: Profile): (r: Result<PredictorFields, PredictionError>)
    requires 0 < profile.simulationTickHz
    ensures r.Ok? ==> r.value.profile == profile && 0 < r.value.maxInputLifetimeUs
    ensures r.Ok? <==> profile.simulationTickHz <= profile.inputTimeoutTicks * MICROS_PER_SECOND <= U64_MAX
    ensures r == Err(TimeoutOverflow) <==> profile.inputTimeoutTicks * MICROS_PER_SECOND > U64_MAX
    ensures r.Ok? ==> Lasts(r.value.maxInputLifetimeUs, profile.simulationTickHz, profile.inputTimeoutTicks)
  {
    var numerator := profile.inputTimeoutTicks * MICROS_PER_SECOND;
    if numerator > U64_MAX then Err(TimeoutOverflow)
    else
      LifetimeBound(numerator, profile.simulationTickHz);
      var lifetime := numerator / profile.simulationTickHz;
      if lifetime == 0 then Err(ZeroPredictableLifetime) else Ok(Predictor(profile, lifetime))
  }

  lemma LifetimeBound(numerator: nat, hz: nat)
    requires 0 < hz
    ensures 0 <= numerator / hz <= numerator
    ensures numerator / hz == 0 <==> numerator < hz
    ensures (numerator / hz) * hz <= numerator < (numerator / hz + 1) * hz
  {
    var q := numerator / hz;
    assert numerator == q * hz + numerator % hz;
    assert (q + 1) * hz == q * hz + hz;
    ProductAtLeast(q, hz);
  }

  lemma ProductAtLeast(q: nat, hz: nat)
    requires 0 < hz
    ensures q <= q * hz && (1 <= q ==> hz <= q * hz)
  {
  }

  type Predictor = p: PredictorFields | 0 < p.profile.simulationTickHz witness Predictor(Profile(1, 1, 1), 1)

  function ClampedDuration(p: Predictor, segment: ReplaySegment): nat {
    Min(segment.durationUs, p.maxInputLifetimeUs)
  }

  function InputOf(intent: MoveIntent): MovementInput {
    MovementInput(intent.axisX, intent.axisY)
  }

  ghost function SegmentNumerator(p: Predictor, segment: ReplaySegment): Vector {
    var (x, y) := NormalizedAxes(InputOf(segment.intent));
    Vector(p.profile.speedMmPerSecond * x * ClampedDuration(p, segment),
           p.profile.speedMmPerSecond * y * ClampedDuration(p, segment))
  }

  ghost function NumeratorsX(p: Predictor, segments: seq<ReplaySegment>): seq<int> {
    seq(|segments|, i requires 0 <= i < |segments| => SegmentNumerator(p, segments[i]).x)
  }

  ghost function NumeratorsY(p: Predictor, segments: seq<ReplaySegment>): seq<int> {
    seq(|segments|, i requires 0 <= i < |segments| => SegmentNumerator(p, segments[i]).y)
  }

  /** The predicted displacement: a run of carried divisions on each axis. */
  ghost function Displacement(p: Predictor, segments: seq<ReplaySegment>): Vector {
    Vector(Run(DENOMINATOR, 0, NumeratorsX(p, segments)).total,
           Run(DENOMINATOR, 0, NumeratorsY(p, segments)).total)
  }

  datatype Position = Position(x: int, y: int, z: int)

  lemma SegmentNumeratorFits(p: Predictor, segment: ReplaySegment)
    ensures var n := SegmentNumerator(p, segment);
            && -0x7FFF_FFFF_FFFF * U64_MAX <= n.x <= 0x7FFF_FFFF_FFFF * U64_MAX
            && -0x7FFF_FFFF_FFFF * U64_MAX <= n.y <= 0x7FFF_FFFF_FFFF * U64_MAX
  {
    var input := InputOf(segment.intent);
    NormalizedAxisRange(input);
    var (x, y) := NormalizedAxes(input);
    ProductBound(p.profile.speedMmPerSecond, x);
    ProductBound(p.profile.speedMmPerSecond, y);
    ScaledBound(p.profile.speedMmPerSecond * x, ClampedDuration(p, segment));
    ScaledBound(p.profile.speedMmPerSecond * y, ClampedDuration(p, segment));
  }

  lemma ScaledBound(a: int, d: nat)
    requires -0x7FFF_FFFF_FFFF <= a <= 0x7FFF_FFFF_FFFF && d <= U64_MAX
    ensures -0x7FFF_FFFF_FFFF * U64_MAX <= a * d <= 0x7FFF_FFFF_FFFF * U64_MAX
  {
    ProductMonotone(a, 0x7FFF_FFFF_FFFF, d);
    ProductMonotone(-0x7FFF_FFFF_FFFF, a, d);
  }

  lemma ProductMonotone(a: int, b: int, d: nat)
    requires a <= b
    ensures a * d <= b * d
  {
  }

  /** The runs over the first `i + 1` segments, from the runs over the first `i`. */
  lemma PrefixStep(p: Predictor, segments: seq<ReplaySegment>, i: nat)
    requires i < |segments|
    ensures var n := SegmentNumerator(p, segments[i]);
            var x := Run(DENOMINATOR, 0, NumeratorsX(p, segments[..i]));
            var y := Run(DENOMINATOR, 0, NumeratorsY(p, segments[..i]));
            && Run(DENOMINATOR, 0, NumeratorsX(p, segments[..i + 1]))
                 == Carried(x.total + Quot(x.remainder + n.x, DENOMINATOR), Rem(x.remainder + n.x, DENOMINATOR))
            && Run(DENOMINATOR, 0, NumeratorsY(p, segments[..i + 1]))
                 == Carried(y.total + Quot(y.remainder + n.y, DENOMINATOR), Rem(y.remainder + n.y, DENOMINATOR))
  {
    var n := SegmentNumerator(p, segments[i]);
    assert NumeratorsX(p, segments[..i + 1]) == NumeratorsX(p, segments[..i]) + [n.x];
    assert NumeratorsY(p, segments[..i + 1]) == NumeratorsY(p, segments[..i]) + [n.y];
    RunOneMore(DENOMINATOR, 0, NumeratorsX(p, segments[..i]), n.x);
    RunOneMore(DENOMINATOR, 0, NumeratorsY(p, segments[..i]), n.y);
  }

  /** Some prefix of the replay leaves the 128-bit accumulator's range. */
  ghost predicate AccumulatorOverflows(p: Predictor, baseline: Snapshot, segments: seq<ReplaySegment>) {
    exists k :: 0 <= k <= |segments| &&
      !InAccumulator(baseline, Displacement(p, segments[..k]))
  }

  ghost predicate InAccumulator(baseline: Snapshot, moved: Vector) {
    InI128(baseline.x + moved.x) && InI128(baseline.y + moved.y)
  }

  predicate IsRemainder(r: int) { -DENOMINATOR < r < DENOMINATOR }

  /** One segment of the replay.  The numerators fit 128 bits, so no checked operation fails. */
  method Advance(p: Predictor, segments: seq<ReplaySegment>, i: nat, remainderX: int, remainderY: int)
      returns (deltaX: int, deltaY: int, nextX: int, nextY: int)
    requires i < |segments| && IsRemainder(remainderX) && IsRemainder(remainderY)
    requires Run(DENOMINATOR, 0, NumeratorsX(p, segments[..i])).remainder == remainderX
    requires Run(DENOMINATOR, 0, NumeratorsY(p, segments[..i])).remainder == remainderY
    ensures Run(DENOMINATOR, 0, NumeratorsX(p, segments[..i + 1]))
              == Carried(Run(DENOMINATOR, 0, NumeratorsX(p, segments[..i])).total + deltaX, nextX)
    ensures Run(DENOMINATOR, 0, NumeratorsY(p, segments[..i + 1]))
              == Carried(Run(DENOMINATOR, 0, NumeratorsY(p, segments[..i])).total + deltaY, nextY)
    ensures IsRemainder(nextX) && IsRemainder(nextY)
  {
    var segment := segments[i];
    var duration := Min(segment.durationUs, p.maxInputLifetimeUs);
    var axisX, axisY := ComputeNormalizedAxes(InputOf(segment.intent));
    var numeratorX := remainderX + p.profile.speedMmPerSecond * axisX * duration;
    var numeratorY := remainderY + p.profile.speedMmPerSecond * axisY * duration;
    SegmentNumeratorFits(p, segment);
    assert InI128(numeratorX) && InI128(numeratorY);
    PrefixStep(p, segments, i);
    RemRange(numeratorX, DENOMINATOR);
    RemRange(numeratorY, DENOMINATOR);
    deltaX, deltaY := Quot(numeratorX, DENOMINATOR), Quot(numeratorY, DENOMINATOR);
    nextX, nextY := Rem(numeratorX, DENOMINATOR), Rem(numeratorY, DENOMINATOR);
  }

  /** Replaying the segments moves so far and leaves these remainders. */
  ghost predicate Replayed(p: Predictor, segments: seq<ReplaySegment>, x: int, remainderX: int, y: int, remainderY: int)
  {
    && Run(DENOMINATOR, 0, NumeratorsX(p, segments)) == Carried(x, remainderX)
    && Run(DENOMINATOR, 0, NumeratorsY(p, segments)) == Carried(y, remainderY)
    && IsRemainder(remainderX) && IsRemainder(remainderY)
  }

  method AdvanceFrom(p: Predictor, baseline: Snapshot, segments: seq<ReplaySegment>, i: nat, x: int, y: int,
                     remainderX: int, remainderY: int)
    returns (nextX: int, nextY: int, leftX: int, leftY: int)
    requires i < |segments|
    requires Replayed(p, segments[..i], x - baseline.x, remainderX, y - baseline.y, remainderY)
    ensures Replayed(p, segments[..i + 1], nextX - baseline.x, leftX, nextY - baseline.y, leftY)
  {
    var deltaX, deltaY;
    deltaX, deltaY, leftX, leftY := Advance(p, segments, i, remainderX, remainderY);
    nextX, nextY := x + deltaX, y + deltaY;
  }

  /** Replays the plan from the baseline.  Only the position can overflow. */
  method Predict(p: Predictor, baseline: Snapshot, plan: ReplayPlan) returns (r: Result<Position, PredictionError>)
    ensures var moved := Displacement(p, plan.segments);
            var target := Position(baseline.x + moved.x, baseline.y + moved.y, baseline.z);
            r == if AccumulatorOverflows(p, baseline, plan.segments) || !InI64(target.x) || !InI64(target.y)
                 then Err(PositionOverflow)
                 else Ok(target)
  {
    var x: int, y: int := baseline.x, baseline.y;
    var remainderX: int, remainderY: int := 0, 0;
    ghost var segments := plan.segments;
    for i := 0 to |plan.segments|
      invariant Replayed(p, segments[..i], x - baseline.x, remainderX, y - baseline.y, remainderY)
      invariant forall k :: 0 <= k <= i ==> InAccumulator(baseline, Displacement(p, segments[..k]))
    {
      x, y, remainderX, remainderY := AdvanceFrom(p, baseline, plan.segments, i, x, y, remainderX, remainderY);
      assert Displacement(p, segments[..i + 1]) == Vector(x - baseline.x, y - baseline.y);
      if !InI128(x) || !InI128(y) {
        return Err(PositionOverflow);
      }
    }
    assert segments[..|segments|] == segments;
    if !InI64(x) || !InI64(y) {
      return Err(PositionOverflow);
    }
    r := Ok(Position(x, y, baseline.z));
  }

  // ----- Splitting a segment -----

  lemma SplitNumerators(p: Predictor, whole: ReplaySegment, first: ReplaySegment, second: ReplaySegment)
    requires first.intent == whole.intent == second.intent
    requires first.durationUs + second.durationUs == whole.durationUs <= p.maxInputLifetimeUs
    ensures var n, a, b := SegmentNumerator(p, whole), SegmentNumerator(p, first), SegmentNumerator(p, second);
            && n == Vector(a.x + b.x, a.y + b.y)
            && SameSign(a.x, b.x) && SameSign(a.y, b.y)
  {
    var (x, y) := NormalizedAxes(InputOf(whole.intent));
    Distribute(p.profile.speedMmPerSecond * x, first.durationUs, second.durationUs);
    Distribute(p.profile.speedMmPerSecond * y, first.durationUs, second.durationUs);
    ScaledSameSign(p.profile.speedMmPerSecond * x, first.durationUs, second.durationUs);
    ScaledSameSign(p.profile.speedMmPerSecond * y, first.durationUs, second.durationUs);
  }

  lemma Distribute(v: int, a: int, b: int)
    ensures v * (a + b) == v * a + v * b
  {
  }

  /** Cutting one segment of one intent into two consecutive pieces leaves the prediction
      unchanged, wherever it stands in the plan, when the lifetime clamp does not bind. */
  lemma SplittingKeepsPrediction(
    p: Predictor, before: seq<ReplaySegment>, whole: ReplaySegment, first: ReplaySegment, second: ReplaySegment,
    after: seq<ReplaySegment>)
    requires first.intent == whole.intent == second.intent
    requires first.durationUs + second.durationUs == whole.durationUs <= p.maxInputLifetimeUs
    ensures Displacement(p, before + [first, second] + after) == Displacement(p, before + [whole] + after)
  {
    var n, a, b := SegmentNumerator(p, whole), SegmentNumerator(p, first), SegmentNumerator(p, second);
    SplitNumerators(p, whole, first, second);
    assert NumeratorsX(p, before + [first, second] + after)
             == NumeratorsX(p, before) + [a.x, b.x] + NumeratorsX(p, after);
    assert NumeratorsX(p, before + [whole] + after) == NumeratorsX(p, before) + [n.x] + NumeratorsX(p, after);
    assert NumeratorsY(p, before + [first, second] + after)
             == NumeratorsY(p, before) + [a.y, b.y] + NumeratorsY(p, after);
    assert NumeratorsY(p, before + [whole] + after) == NumeratorsY(p, before) + [n.y] + NumeratorsY(p, after);
    SplitInsideRun(DENOMINATOR, 0, NumeratorsX(p, before), a.x, b.x, NumeratorsX(p, after));
    SplitInsideRun(DENOMINATOR, 0, NumeratorsY(p, before), a.y, b.y, NumeratorsY(p, after));
  }

  lemma ScaledSameSign(a: int, d: nat, e: nat)
    ensures SameSign(a * d, a * e) && SameSign(a, a * d)
  {
    if a >= 0 {
      assert a * d >= 0 && a * e >= 0;
    } else {
      assert a * d <= 0 && a * e <= 0;
    }
  }

  // ----- Prediction refines server ticks -----

  function Repeat<T>(value: T, times: nat): seq<T> {
    seq(times, i => value)
  }

  lemma {:induction false} SumRepeat(a: int, times: nat)
    ensures Sum(Repeat(a, times)) == a * times
  {
    if times > 0 {
      assert Repeat(a, times)[1..] == Repeat(a, times - 1);
      SumRepeat(a, times - 1);
      assert a * times == a + a * (times - 1);
    }
  }

  lemma RepeatedRun(den: int, a: int, times: nat)
    requires 0 < den
    ensures Run(den, 0, Repeat(a, times)).total == Quot(a * times, den)
  {
    SumRepeat(a, times);
    RunOneSign(den, 0, Repeat(a, times), if a >= 0 then 1 else -1);
  }

  lemma TickDenominator(hz: nat, tickUs: nat)
    requires tickUs * hz == MICROS_PER_SECOND
    ensures (AXIS_SCALE * hz) * tickUs == DENOMINATOR
  {
    assert (AXIS_SCALE * hz) * tickUs == AXIS_SCALE * (tickUs * hz);
  }

  lemma ScaledQuotient(v: int, k: nat, den: int, tickUs: int, total: int)
    requires 0 < den && 0 < tickUs && 0 < total && den * tickUs == total
    ensures Quot(v * (k * tickUs), total) == Quot(v * k, den)
  {
    assert v * (k * tickUs) == (v * k) * tickUs;
    QuotScale(v * k, den, tickUs);
  }

  /** One axis: `k` server ticks and one client segment of `k` tick lengths agree. */
  lemma AxisAgrees(v: int, hz: nat, tickUs: nat, k: nat)
    requires 0 < hz && 0 < tickUs && tickUs * hz == MICROS_PER_SECOND
    ensures Run(AXIS_SCALE * hz, 0, Repeat(v, k)).total == Run(DENOMINATOR, 0, [v * (k * tickUs)]).total
  {
    TickDenominator(hz, tickUs);
    RepeatedRun(AXIS_SCALE * hz, v, k);
    ScaledQuotient(v, k, AXIS_SCALE * hz, tickUs, DENOMINATOR);
    RunOnce(DENOMINATOR, 0, v * (k * tickUs));
  }

  /** From zero remainder in free space, holding one input for `k` ticks, the predictor moves
      exactly as far as the server's `k` steps add up to.  The tick rate divides a second and the
      segment lasts `k` ticks, at most the input timeout. */
  lemma PredictionRefinesTicks(p: Predictor, intent: MoveIntent, k: nat, segment: ReplaySegment)
    requires NewPredictor(p.profile) == Ok(p)
    requires MICROS_PER_SECOND % p.profile.simulationTickHz == 0
    requires k <= p.profile.inputTimeoutTicks
    requires segment.intent == intent
    requires segment.durationUs == k * (MICROS_PER_SECOND / p.profile.simulationTickHz)
    ensures var rules: MovementRules := Rules(p.profile.speedMmPerSecond, p.profile.simulationTickHz);
            var server := TickRun(rules, Repeat(InputOf(intent), k), Vector(0, 0));
            && server.Ok?
            && server.value.delta == Displacement(p, [segment])
  {
    var hz := p.profile.simulationTickHz;
    var rules: MovementRules := Rules(p.profile.speedMmPerSecond, hz);
    var inputs := Repeat(InputOf(intent), k);
    var (x, y) := NormalizedAxes(InputOf(intent));
    var vx, vy := p.profile.speedMmPerSecond * x, p.profile.speedMmPerSecond * y;
    TicksWithinLifetime(p.profile.inputTimeoutTicks, hz, k);
    assert ClampedDuration(p, segment) == segment.durationUs;
    TickRunIsCarriedRun(rules, inputs, Vector(0, 0));
    HeldNumerators(rules, intent, k);
    var tickUs := MICROS_PER_SECOND / hz;
    assert tickUs * hz == MICROS_PER_SECOND && 0 < tickUs;
    AxisAgrees(vx, hz, tickUs, k);
    AxisAgrees(vy, hz, tickUs, k);
    SingleNumerators(p, segment);
  }

  lemma HeldNumerators(rules: MovementRules, intent: MoveIntent, k: nat)
    ensures var inputs, (x, y) := Repeat(InputOf(intent), k), NormalizedAxes(InputOf(intent));
            && Movement.NumeratorsX(rules, inputs) == Repeat(rules.speedMmPerSecond * x, k)
            && Movement.NumeratorsY(rules, inputs) == Repeat(rules.speedMmPerSecond * y, k)
  {
  }

  lemma SingleNumerators(p: Predictor, segment: ReplaySegment)
    requires ClampedDuration(p, segment) == segment.durationUs
    ensures var (x, y) := NormalizedAxes(InputOf(segment.intent));
            && NumeratorsX(p, [segment]) == [p.profile.speedMmPerSecond * x * segment.durationUs]
            && NumeratorsY(p, [segment]) == [p.profile.speedMmPerSecond * y * segment.durationUs]
  {
  }

  lemma TicksWithinLifetime(timeoutTicks: nat, hz: nat, k: nat)
    requires 0 < hz && MICROS_PER_SECOND % hz == 0 && k <= timeoutTicks
    ensures k * (MICROS_PER_SECOND / hz) <= timeoutTicks * MICROS_PER_SECOND / hz
  {
    var tickUs := MICROS_PER_SECOND / hz;
    assert tickUs * hz == MICROS_PER_SECOND;
    assert timeoutTicks * MICROS_PER_SECOND == (timeoutTicks * tickUs) * hz;
    QuotientOfMultiple(timeoutTicks * tickUs, hz);
    assert k * tickUs <= timeoutTicks * tickUs;
  }

  lemma QuotientOfMultiple(a: nat, b: nat)
    requires 0 < b
    ensures a * b / b == a
  {
    var q := a * b / b;
    assert a * b == q * b + a * b % b;
    MultipleInsideDivisor(a - q, b);
  }
}
