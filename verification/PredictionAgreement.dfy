/** The client's prediction against a whole run of authoritative zone ticks. */
module PredictionAgreement {
  import opened MachineInts
  import opened CarriedDivision
  import opened Movement
  import T = Traversal
  import Z = ZoneMovement
  import R = Reconciliation
  import P = Prediction

  /** A body at each of the moments between ticks, in a zone without blockers. */
  ghost predicate TickTrace(rules: MovementRules, radius: int, trace: seq<Z.Body>) {
    && trace != []
    && forall i :: 0 < i < |trace| ==> Z.BodyTicks([], rules, radius, trace[i - 1], trace[i])
  }

  /** In free space the authoritative position after a trace is the start plus the run's
      displacement, and the carried remainder is the run's. */
  lemma {:induction false} FreeSpaceTrace(rules: MovementRules, radius: int, trace: seq<Z.Body>, input: MovementInput)
    requires TickTrace(rules, radius, trace)
    requires trace[0].intent == Some(input) && IsRemainder(rules, trace[0].remainder)
    ensures var k := |trace| - 1;
            var run := TickRun(rules, P.Repeat(input, k), trace[0].remainder);
            && run.Ok?
            && trace[k].position.x == trace[0].position.x + run.value.delta.x
            && trace[k].position.y == trace[0].position.y + run.value.delta.y
            && trace[k].position.z == trace[0].position.z
            && trace[k].remainder == run.value.remainder
    decreases |trace|
  {
    if |trace| > 1 {
      assert Z.BodyTicks([], rules, radius, trace[0], trace[1]);
      TickNeverOverflows(rules, input, trace[0].remainder);
      var delta := Tick(rules, input, trace[0].remainder).value.delta;
      if delta != Vector(0, 0) {
        T.FreeSpaceUnconstrained(radius, trace[0].position, delta, trace[1].position);
      }
      FreeSpaceTrace(rules, radius, trace[1..], input);
      assert P.Repeat(input, |trace| - 1)[1..] == P.Repeat(input, |trace| - 2);
    }
  }

  /** The client that replays one held intent over `k` tick lengths predicts exactly where the
      server puts the character after `k` ticks, when that character starts with no remainder in
      free space, the tick rate divides a second, and the hold does not exceed the input timeout. */
  lemma PredictedPositionIsAuthoritative(
    p: P.Predictor, radius: int, trace: seq<Z.Body>, intent: R.MoveIntent, segment: R.ReplaySegment)
    requires P.NewPredictor(p.profile) == Ok(p)
    requires P.MICROS_PER_SECOND % p.profile.simulationTickHz == 0
    requires 1 <= |trace| <= p.profile.inputTimeoutTicks + 1
    requires TickTrace(Rules(p.profile.speedMmPerSecond, p.profile.simulationTickHz), radius, trace)
    requires trace[0].intent == Some(P.InputOf(intent)) && trace[0].remainder == Vector(0, 0)
    requires segment.intent == intent
    requires segment.durationUs == (|trace| - 1) * (P.MICROS_PER_SECOND / p.profile.simulationTickHz)
    ensures var moved := P.Displacement(p, [segment]);
            var last := trace[|trace| - 1].position;
            last.x == trace[0].position.x + moved.x && last.y == trace[0].position.y + moved.y
  {
    var rules: MovementRules := Rules(p.profile.speedMmPerSecond, p.profile.simulationTickHz);
    FreeSpaceTrace(rules, radius, trace, P.InputOf(intent));
    P.PredictionRefinesTicks(p, intent, |trace| - 1, segment);
  }
}
