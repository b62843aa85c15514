/** What the client's history answers to a send and to a snapshot, and which input its replay plan holds at
    each moment (apps/protocol-client/src/reconciliation.rs, held_prediction.rs). */
module ReplayMeaning {
  import opened MachineInts
  import opened Reconciliation
  import H = HeldPrediction

  /** A send is recorded exactly when there is room, its sequence is new, and the clock did not go back. */
  lemma SendAnswers(h: History, intent: MoveIntent, at: ClientTimeUs)
    ensures var r := RecordSent(h, intent, at);
            var full := |h.pending| >= h.capacity;
            var repeats := h.highestSent.Some? && intent.sequence <= h.highestSent.value;
            var back := h.lastSentAt.Some? && at < h.lastSentAt.value;
            && (r.Ok? <==> !full && !repeats && !back)
            && (r == Err(PendingHistoryFull) <==> full)
            && (r.Err? && r.error.NonMonotonicSentInput? <==> !full && repeats)
            && (r.Err? && r.error.NonMonotonicClientTime? <==> !full && !repeats && back)
            && (r.Ok? ==>
                  r.value == History(h.pending + [TimedInput(intent, at)], h.capacity, Some(intent.sequence), Some(at),
                                     h.lastProcessed, h.lastSnapshot))
  {
  }

  /** The snapshot is the first, or of a later tick than the last. */
  predicate Newer(h: History, s: Snapshot) {
    h.lastSnapshot.Some? ==> h.lastSnapshot.value.serverTick < s.serverTick
  }

  /** The acknowledgement neither goes back nor names an input that was not sent. */
  predicate Acknowledges(h: History, s: Snapshot) {
    && (h.lastProcessed.Some? ==> s.sequence.Some? && h.lastProcessed.value <= s.sequence.value)
    && (h.highestSent.Some? && s.sequence.Some? ==> s.sequence.value <= h.highestSent.value)
  }

  /** A snapshot is applied exactly when it is newer and its acknowledgement is in order; the last one again
      is ignored, as is any older one; and each other snapshot is refused for one reason. */
  lemma SnapshotAnswers(h: History, s: Snapshot)
    ensures var r := ApplySnapshot(h, s);
            var ackBack := h.lastProcessed.Some? && s.sequence.Some? && s.sequence.value < h.lastProcessed.value;
            && (r.Ok? && r.value.0.Applied? <==> Newer(h, s) && Acknowledges(h, s))
            && (r.Ok? && r.value.0.IgnoredDuplicate? <==> h.lastSnapshot == Some(s))
            && (r.Ok? && r.value.0.IgnoredStale? <==>
                  h.lastSnapshot.Some? && s.serverTick < h.lastSnapshot.value.serverTick)
            && (r == Err(ConflictingDuplicateSnapshot(s.serverTick)) <==>
                  h.lastSnapshot.Some? && s.serverTick == h.lastSnapshot.value.serverTick
                  && h.lastSnapshot != Some(s))
            && (r.Err? && r.error.ProcessedInputAckDisappeared? <==>
                  Newer(h, s) && h.lastProcessed.Some? && s.sequence.None?)
            && (r.Err? && r.error.ProcessedInputAckRegressed? <==> Newer(h, s) && ackBack)
            && (r.Err? && r.error.ProcessedInputAckUnknown? <==>
                  Newer(h, s) && !ackBack && s.sequence.Some? && h.highestSent.Some?
                  && s.sequence.value > h.highestSent.value)
            && (r.Ok? && r.value.0.Applied? ==>
                  var after := r.value.1;
                  after == h.(pending := after.pending, lastProcessed := s.sequence, lastSnapshot := Some(s)))
            && (r.Ok? && !r.value.0.Applied? ==> r.value.1 == h)
  {
  }

  /** The plan has one segment for each input, from when it was sent. */
  lemma PlanFollowsInputs(h: History, now: ClientTimeUs)
    requires Coherent(h) && PlannedTotal(h.pending, now, |h.pending|).Ok?
    ensures var plan := ReplayPlan(now, PlannedTotal(h.pending, now, |h.pending|).value, Segments(h.pending, now));
            && IsPartition(plan, now)
            && |plan.segments| == |h.pending|
            && (forall i :: 0 <= i < |plan.segments| ==>
                  plan.segments[i].intent == h.pending[i].intent && plan.segments[i].startUs == h.pending[i].sentAt)
  {
    PlanIsPartition(h, now);
  }

  /** At every moment the plan covers, it holds the last input that was sent by then. */
  lemma PlanHoldsLatest(h: History, now: ClientTimeUs, i: nat, t: nat)
    requires Coherent(h) && PlannedTotal(h.pending, now, |h.pending|).Ok? && i < |h.pending|
    requires Segments(h.pending, now)[i].startUs <= t < Segments(h.pending, now)[i].endUs
    ensures Segments(h.pending, now)[i].intent == h.pending[i].intent && h.pending[i].sentAt <= t
    ensures forall j :: i < j < |h.pending| ==> t < h.pending[j].sentAt
  {
    PlanFollowsInputs(h, now);
    forall j | i < j < |h.pending|
      ensures t < h.pending[j].sentAt
    {
      assert h.pending[i + 1].sentAt <= h.pending[j].sentAt;
      assert Segments(h.pending, now)[i + 1].startUs == h.pending[i + 1].sentAt;
    }
  }

  /** The augmented plan leads with the active input exactly when time lies between the baseline and the
      first pending input, or now if none is pending; it holds for just that time. */
  lemma LeadFillsTheGap(held: H.Held, pending: seq<ReplaySegment>, now: ClientTimeUs)
    ensures var until := if pending == [] then now else Min(pending[0].startUs, now);
            var segments := H.AugmentedSegments(held, pending, now);
            if held.active.Some? && held.baseline.Some? && held.baseline.value < until then
              segments == [ReplaySegment(held.active.value, held.baseline.value, until, until - held.baseline.value)]
                            + pending
            else segments == pending
  {
  }
}
