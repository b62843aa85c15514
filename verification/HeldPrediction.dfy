/** Extrapolation of the input the server still holds active
    (apps/protocol-client/src/held_prediction.rs). */
module HeldPrediction {
  import opened MachineInts
  import opened Movement
  import opened Reconciliation

  datatype SnapshotV2 = SnapshotV2(lastProcessed: Option<u64>, activeSequence: Option<u64>)

  datatype HeldError =
    | HistoryFull
    | NonMonotonicSentSequence(previous: u64, incoming: u64)
    | ActiveDoesNotMatchProcessed(active: u64, processed: Option<u64>)
    | UnknownActiveSequence(sequence: u64)
    | ZeroInputMarkedActive(sequence: u64)
    | DurationOverflow

  datatype Held = Held(
    sent: seq<MoveIntent>,
    capacity: nat,
    active: Option<MoveIntent>,
    baseline: Option<ClientTimeUs>)

  predicate Increasing(sent: seq<MoveIntent>) {
    forall i, j :: 0 <= i < j < |sent| ==> sent[i].sequence < sent[j].sequence
  }

  predicate Wellformed(held: Held) {
    && Increasing(held.sent) && |held.sent| <= held.capacity
    && (held.active.Some? ==> !held.active.value.IsZero() && held.baseline.Some?)
  }

  /** `intent` is the input with that sequence among those sent, or else the active one. */
  predicate Resolves(held: Held, sequence: u64, intent: MoveIntent) {
    && intent.sequence == sequence
    && (intent in held.sent
        || ((forall m :: m in held.sent ==> m.sequence != sequence) && held.active == Some(intent)))
  }

  lemma ResolvesUnique(held: Held, sequence: u64, a: MoveIntent, b: MoveIntent)
    requires Increasing(held.sent) && Resolves(held, sequence, a) && Resolves(held, sequence, b)
    ensures a == b
  {
    if a in held.sent && b in held.sent {
      var i :| 0 <= i < |held.sent| && held.sent[i] == a;
      var j :| 0 <= j < |held.sent| && held.sent[j] == b;
      assert !(i < j) && !(j < i);
    }
  }

  /** The segments of the augmented plan: the held input from the baseline to the first
      pending input, when there is such a gap, and then the pending segments. */
  function AugmentedSegments(held: Held, pending: seq<ReplaySegment>, now: ClientTimeUs): seq<ReplaySegment> {
    if held.active.None? || held.baseline.None? then pending
    else
      var start := held.baseline.value;
      var end := if pending == [] then now
                 else if pending[0].startUs > start then Min(pending[0].startUs, now)
                 else start;
      if end > start then [ReplaySegment(held.active.value, start, end, end - start)] + pending else pending
  }

  /** The sum of the durations of contiguous segments telescopes. */
  lemma {:induction false} TotalDurationTelescopes(segments: seq<ReplaySegment>)
    requires segments != [] && Contiguous(segments)
    ensures TotalDuration(segments) == segments[|segments| - 1].endUs - segments[0].startUs
  {
    var init := segments[..|segments| - 1];
    if init != [] {
      TotalDurationTelescopes(init);
    }
  }

  lemma ContiguousBounds(segments: seq<ReplaySegment>, i: nat)
    requires Contiguous(segments) && i < |segments|
    ensures segments[0].startUs <= segments[i].startUs
  {
    if i > 0 { ContiguousBounds(segments, i - 1); }
  }

  lemma PrependContiguous(first: ReplaySegment, rest: seq<ReplaySegment>)
    requires Contiguous(rest) && Contiguous([first])
    requires rest != [] ==> first.endUs == rest[0].startUs
    ensures Contiguous([first] + rest)
  {
    var all := [first] + rest;
    assert first == [first][0];
    assert forall i :: 0 < i < |all| ==> all[i] == rest[i - 1];
  }

  /** At any time not before the baseline, augmenting a partition gives a partition: gap-free,
      non-overlapping, ending at `now`, of total length `now` minus its first start. */
  lemma AugmentedPlanIsPartition(held: Held, plan: ReplayPlan, now: ClientTimeUs)
    requires IsPartition(plan, now)
    requires held.baseline.Some? ==> held.baseline.value <= now
    ensures var segments := AugmentedSegments(held, plan.segments, now);
            && TotalDuration(segments) <= U64_MAX
            && IsPartition(ReplayPlan(now, TotalDuration(segments), segments), now)
            && (held.active.Some? && held.baseline.Some? && held.baseline.value < now ==>
                 segments != [] && segments[0].startUs <= held.baseline.value)
  {
    var segments := AugmentedSegments(held, plan.segments, now);
    if plan.segments != [] {
      ContiguousBounds(plan.segments, |plan.segments| - 1);
    }
    if segments != plan.segments {
      PrependContiguous(segments[0], plan.segments);
      assert segments == [segments[0]] + plan.segments;
    }
    assert Contiguous(segments);
    if segments != [] {
      assert segments[|segments| - 1].endUs == now;
      TotalDurationTelescopes(segments);
    }
  }

  class HeldInputExtrapolator {
    var sent: seq<MoveIntent>
    var capacity: nat
    var active: Option<MoveIntent>
    var baseline: Option<ClientTimeUs>

    function View(): Held
      reads this
    {
      Held(sent, capacity, active, baseline)
    }

    constructor (capacity: nat)
      ensures View() == Held([], capacity, None, None) && Wellformed(View())
    {
      sent, this.capacity, active, baseline := [], capacity, None, None;
    }

    method RecordSentInput(intent: MoveIntent) returns (r: Result<(), HeldError>)
      requires Wellformed(View())
      modifies this
      ensures Wellformed(View())
      ensures r.Err? ==> View() == old(View())
      ensures r.Ok? ==> View() == old(View()).(sent := old(sent) + [intent])
      ensures r.Ok? <==> old(|sent| < capacity && forall m :: m in sent ==> m.sequence < intent.sequence)
      ensures r == Err(HistoryFull) <==>
                old(capacity <= |sent| && forall m :: m in sent ==> m.sequence < intent.sequence)
    {
      if sent != [] && intent.sequence <= sent[|sent| - 1].sequence {
        return Err(NonMonotonicSentSequence(sent[|sent| - 1].sequence, intent.sequence));
      }
      if |sent| >= capacity {
        return Err(HistoryFull);
      }
      sent := sent + [intent];
      r := Ok(());
    }

    method Resolve(sequence: u64) returns (r: Option<MoveIntent>)
      ensures r.Some? ==> Resolves(View(), sequence, r.value)
      ensures r.None? ==> forall intent :: !Resolves(View(), sequence, intent)
    {
      for i := 0 to |sent|
        invariant forall k :: 0 <= k < i ==> sent[k].sequence != sequence
      {
        if sent[i].sequence == sequence {
          return Some(sent[i]);
        }
      }
      if active.Some? && active.value.sequence == sequence {
        return active;
      }
      r := None;
    }

    /** Adopts a snapshot as the new baseline.  An accepted snapshot leaves exactly the sent
        inputs not below the processed one, and the active input it names. */
    method ApplyAuthoritativeSnapshot(s: SnapshotV2, receivedAt: ClientTimeUs) returns (r: Result<(), HeldError>)
      requires Wellformed(View())
      modifies this
      ensures Wellformed(View())
      ensures r.Err? ==> View() == old(View())
      ensures r.Ok? <==>
                (s.activeSequence.Some? ==>
                  && s.lastProcessed == s.activeSequence
                  && exists intent :: Resolves(old(View()), s.activeSequence.value, intent) && !intent.IsZero())
      ensures r.Ok? ==>
                && capacity == old(capacity)
                && baseline == Some(receivedAt)
                && (active.Some? <==> s.activeSequence.Some?)
                && (active.Some? ==> Resolves(old(View()), s.activeSequence.value, active.value))
                && (forall m :: m in sent <==>
                      m in old(sent) && (s.lastProcessed.Some? ==> m.sequence >= s.lastProcessed.value))
    {
      var activeIntent: Option<MoveIntent> := None;
      if s.activeSequence.Some? {
        var sequence := s.activeSequence.value;
        if s.lastProcessed != Some(sequence) {
          return Err(ActiveDoesNotMatchProcessed(sequence, s.lastProcessed));
        }
        var found := Resolve(sequence);
        if found.None? {
          return Err(UnknownActiveSequence(sequence));
        }
        if found.value.IsZero() {
          forall intent | Resolves(View(), sequence, intent)
            ensures intent.IsZero()
          {
            ResolvesUnique(View(), sequence, intent, found.value);
          }
          return Err(ZeroInputMarkedActive(sequence));
        }
        activeIntent := found;
      }
      if s.lastProcessed.Some? {
        var processed := s.lastProcessed.value;
        while sent != [] && sent[0].sequence < processed
          invariant Increasing(sent) && |sent| <= capacity
          invariant capacity == old(capacity)
          invariant forall m :: m in sent ==> m in old(sent)
          invariant forall m :: m in old(sent) && m.sequence >= processed ==> m in sent
          decreases |sent|
        {
          sent := sent[1..];
        }
        forall m | m in sent
          ensures m.sequence >= processed
        {
          var k :| 0 <= k < |sent| && sent[k] == m;
          assert k == 0 || sent[0].sequence < sent[k].sequence;
        }
      }
      active, baseline := activeIntent, Some(receivedAt);
      r := Ok(());
    }

    /** The augmented plan, or overflow exactly when the durations do not fit in 64 bits. */
    method AugmentReplayPlan(pending: ReplayPlan, now: ClientTimeUs) returns (r: Result<ReplayPlan, HeldError>)
      ensures var segments := AugmentedSegments(View(), pending.segments, now);
              r == if TotalDuration(segments) <= U64_MAX
                   then Ok(ReplayPlan(now, TotalDuration(segments), segments))
                   else Err(DurationOverflow)
    {
      var segments: seq<ReplaySegment> := [];
      var total: u64 := 0;
      ghost var all := AugmentedSegments(View(), pending.segments, now);
      if active.Some? && baseline.Some? {
        var heldStart := baseline.value;
        var heldEnd := if pending.segments == [] then now
                       else if pending.segments[0].startUs > heldStart then Min(pending.segments[0].startUs, now)
                       else heldStart;
        if heldEnd > heldStart {
          total := heldEnd - heldStart;
          segments := [ReplaySegment(active.value, heldStart, heldEnd, total)];
          assert segments[..0] == [];
        }
      }
      ghost var lead := |segments|;
      for i := 0 to |pending.segments|
        invariant segments == all[..lead + i]
        invariant total == TotalDuration(segments)
      {
        var segment := pending.segments[i];
        assert all[..lead + i + 1] == all[..lead + i] + [segment];
        assert all[..lead + i + 1][..lead + i] == all[..lead + i];
        if total + segment.durationUs > U64_MAX {
          TotalDurationPrefix(all, lead + i + 1);
          return Err(DurationOverflow);
        }
        total := total + segment.durationUs;
        segments := segments + [segment];
      }
      assert all[..|all|] == all;
      r := Ok(ReplayPlan(now, total, segments));
    }
  }

  lemma {:induction false} TotalDurationPrefix(segments: seq<ReplaySegment>, k: nat)
    requires k <= |segments|
    ensures TotalDuration(segments[..k]) <= TotalDuration(segments)
    decreases |segments|
  {
    if k < |segments| {
      var init := segments[..|segments| - 1];
      assert init[..k] == segments[..k];
      TotalDurationPrefix(init, k);
    } else {
      assert segments[..k] == segments;
    }
  }
}
