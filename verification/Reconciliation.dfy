/** The client's history of unacknowledged inputs and the replay plan built from it
    (apps/protocol-client/src/reconciliation.rs, held_prediction.rs). */
module Reconciliation {
  import opened MachineInts
  import opened Movement

  type ClientTimeUs = u64

  datatype MoveIntent = MoveIntent(sequence: u64, axisX: Axis, axisY: Axis) {
    predicate IsZero() { axisX == 0 && axisY == 0 }
  }

  datatype TimedInput = TimedInput(intent: MoveIntent, sentAt: ClientTimeUs)

  datatype Snapshot = Snapshot(serverTick: u64, x: i64, y: i64, z: i64, sequence: Option<u64>)

  datatype ReplaySegment = ReplaySegment(intent: MoveIntent, startUs: u64, endUs: u64, durationUs: u64)

  datatype ReplayPlan = ReplayPlan(generatedAtUs: u64, totalDurationUs: u64, segments: seq<ReplaySegment>)

  datatype ReconciliationError =
    | PendingHistoryFull
    | NonMonotonicSentInput(previous: u64, incoming: u64)
    | NonMonotonicClientTime(previousUs: u64, incomingUs: u64)
    | ProcessedInputAckDisappeared(previous: u64)
    | ProcessedInputAckRegressed(previous: u64, incoming: u64)
    | ProcessedInputAckUnknown(incoming: u64)
    | ConflictingDuplicateSnapshot(serverTick: u64)
    | ReplayDurationOverflow
    | TimeRegressed(earlierUs: u64, laterUs: u64)

  datatype SnapshotOutcome =
    | Applied(acknowledged: nat, pending: nat)
    | IgnoredStale(incomingTick: u64, currentTick: u64)
    | IgnoredDuplicate(serverTick: u64)

  /** The reconciler's fields as a value. */
  datatype History = History(
    pending: seq<TimedInput>,
    capacity: nat,
    highestSent: Option<u64>,
    lastSentAt: Option<ClientTimeUs>,
    lastProcessed: Option<u64>,
    lastSnapshot: Option<Snapshot>)

  function NewHistory(capacity: nat): History {
    History([], capacity, None, None, None, None)
  }

  function RecordSent(h: History, intent: MoveIntent, sentAt: ClientTimeUs): Result<History, ReconciliationError> {
    if |h.pending| >= h.capacity then
      Err(PendingHistoryFull)
    else if h.highestSent.Some? && intent.sequence <= h.highestSent.value then
      Err(NonMonotonicSentInput(h.highestSent.value, intent.sequence))
    else if h.lastSentAt.Some? && sentAt < h.lastSentAt.value then
      Err(NonMonotonicClientTime(h.lastSentAt.value, sentAt))
    else
      Ok(h.(highestSent := Some(intent.sequence), lastSentAt := Some(sentAt),
            pending := h.pending + [TimedInput(intent, sentAt)]))
  }

  function RetainAbove(pending: seq<TimedInput>, ack: u64): seq<TimedInput> {
    if pending == [] then []
    else if pending[0].intent.sequence > ack then [pending[0]] + RetainAbove(pending[1..], ack)
    else RetainAbove(pending[1..], ack)
  }

  /** What a snapshot does: a rejected or ignored one carries no new history. */
  function ApplySnapshot(h: History, s: Snapshot): Result<(SnapshotOutcome, History), ReconciliationError> {
    if h.lastSnapshot.Some? && s.serverTick < h.lastSnapshot.value.serverTick then
      Ok((IgnoredStale(s.serverTick, h.lastSnapshot.value.serverTick), h))
    else if h.lastSnapshot.Some? && s.serverTick == h.lastSnapshot.value.serverTick then
      if s != h.lastSnapshot.value then Err(ConflictingDuplicateSnapshot(s.serverTick))
      else Ok((IgnoredDuplicate(s.serverTick), h))
    else if h.lastProcessed.Some? && s.sequence.None? then
      Err(ProcessedInputAckDisappeared(h.lastProcessed.value))
    else if h.lastProcessed.Some? && s.sequence.value < h.lastProcessed.value then
      Err(ProcessedInputAckRegressed(h.lastProcessed.value, s.sequence.value))
    else if s.sequence.Some? && h.highestSent.Some? && s.sequence.value > h.highestSent.value then
      Err(ProcessedInputAckUnknown(s.sequence.value))
    else
      var kept := if s.sequence.Some? then RetainAbove(h.pending, s.sequence.value) else h.pending;
      Ok((Applied(if |kept| <= |h.pending| then |h.pending| - |kept| else 0, |kept|),
          h.(pending := kept, lastProcessed := s.sequence, lastSnapshot := Some(s))))
  }

  // ----- The invariant of every run -----

  predicate StrictlyIncreasing(pending: seq<TimedInput>) {
    forall i, j :: 0 <= i < j < |pending| ==> pending[i].intent.sequence < pending[j].intent.sequence
  }

  predicate TimeOrdered(pending: seq<TimedInput>) {
    forall i, j :: 0 <= i < j < |pending| ==> pending[i].sentAt <= pending[j].sentAt
  }

  predicate AllAbove(pending: seq<TimedInput>, ack: Option<u64>) {
    ack.Some? ==> forall i :: 0 <= i < |pending| ==> pending[i].intent.sequence > ack.value
  }

  /** Pending inputs are strictly increasing, time-ordered, bounded and above the last ACK. */
  predicate Sound(h: History) {
    && StrictlyIncreasing(h.pending)
    && TimeOrdered(h.pending)
    && |h.pending| <= h.capacity
    && AllAbove(h.pending, h.lastProcessed)
  }

  predicate Bounded(h: History) {
    && (h.highestSent.None? ==> h.pending == [] && h.lastSentAt.None?)
    && (h.highestSent.Some? ==> h.lastSentAt.Some?)
    && (forall i :: 0 <= i < |h.pending| ==>
          h.pending[i].intent.sequence <= h.highestSent.value && h.pending[i].sentAt <= h.lastSentAt.value)
    && (h.highestSent.Some? && h.lastProcessed.Some? ==> h.lastProcessed.value <= h.highestSent.value)
  }

  /** No ACK has been taken while nothing was sent. */
  predicate AckAfterSend(h: History) {
    h.highestSent.None? ==> h.lastProcessed.None?
  }

  predicate Coherent(h: History) {
    Sound(h) && Bounded(h) && AckAfterSend(h)
  }

  lemma {:induction false} RetainAboveMembers(pending: seq<TimedInput>, ack: u64)
    ensures |RetainAbove(pending, ack)| <= |pending|
    ensures forall t :: t in RetainAbove(pending, ack) <==> t in pending && t.intent.sequence > ack
  {
    if pending != [] {
      RetainAboveMembers(pending[1..], ack);
      assert forall t :: t in pending <==> t == pending[0] || t in pending[1..];
    }
  }

  predicate Ordered(pending: seq<TimedInput>) {
    StrictlyIncreasing(pending) && TimeOrdered(pending)
  }

  lemma PrependOrdered(first: TimedInput, rest: seq<TimedInput>)
    requires Ordered(rest)
    requires forall t :: t in rest ==> first.intent.sequence < t.intent.sequence && first.sentAt <= t.sentAt
    ensures Ordered([first] + rest)
  {
    var all := [first] + rest;
    forall i, j | 0 <= i < j < |all|
      ensures all[i].intent.sequence < all[j].intent.sequence && all[i].sentAt <= all[j].sentAt
    {
      assert all[j] == rest[j - 1] && all[j] in rest;
    }
  }

  lemma {:induction false} RetainAboveOrdered(pending: seq<TimedInput>, ack: u64)
    requires Ordered(pending)
    ensures Ordered(RetainAbove(pending, ack))
  {
    if pending != [] {
      var rest := pending[1..];
      assert Ordered(rest);
      RetainAboveOrdered(rest, ack);
      RetainAboveMembers(rest, ack);
      forall t | t in RetainAbove(rest, ack)
        ensures pending[0].intent.sequence < t.intent.sequence && pending[0].sentAt <= t.sentAt
      {
        assert t in rest;
      }
      if pending[0].intent.sequence > ack {
        PrependOrdered(pending[0], RetainAbove(rest, ack));
      }
    }
  }

  /** A send keeps the history sound for every input exactly when no ACK was accepted
      before the first send. */
  lemma SendKeepsSoundIff(h: History)
    requires Sound(h) && Bounded(h) && 0 < h.capacity
    ensures (forall intent, at | RecordSent(h, intent, at).Ok? :: Sound(RecordSent(h, intent, at).value))
              <==> AckAfterSend(h)
  {
    if AckAfterSend(h) {
      forall intent, at | RecordSent(h, intent, at).Ok?
        ensures Sound(RecordSent(h, intent, at).value)
      {
        SendKeepsCoherent(h, intent, at);
      }
    } else {
      var stale := MoveIntent(h.lastProcessed.value, 0, 0);
      var after := RecordSent(h, stale, 0).value;
      assert after.pending[0].intent.sequence == h.lastProcessed.value;
      assert !Sound(after);
    }
  }

  /** The failing case arises: a snapshot that acknowledges an input before the first send is applied, and
      a send then leaves an input that is not above the last ACK. */
  lemma AckBeforeSendHappens(capacity: nat, ack: u64)
    requires 0 < capacity
    ensures var h := Step(NewHistory(capacity), Received(Snapshot(0, 0, 0, 0, Some(ack))));
            && Sound(h) && Bounded(h) && !AckAfterSend(h)
            && !Sound(Step(h, Sent(MoveIntent(ack, 0, 0), 0)))
  {
    var h := Step(NewHistory(capacity), Received(Snapshot(0, 0, 0, 0, Some(ack))));
    var after := Step(h, Sent(MoveIntent(ack, 0, 0), 0));
    assert after.pending[0].intent.sequence == ack;
  }

  lemma SendKeepsCoherent(h: History, intent: MoveIntent, at: ClientTimeUs)
    requires Coherent(h) && RecordSent(h, intent, at).Ok?
    ensures Coherent(RecordSent(h, intent, at).value)
  {
  }

  lemma SnapshotKeepsCoherent(h: History, s: Snapshot)
    requires Coherent(h) && ApplySnapshot(h, s).Ok?
    requires h.highestSent.None? ==> s.sequence.None?
    ensures Coherent(ApplySnapshot(h, s).value.1)
  {
    if s.sequence.Some? {
      RetainAboveMembers(h.pending, s.sequence.value);
      RetainAboveOrdered(h.pending, s.sequence.value);
      var kept := RetainAbove(h.pending, s.sequence.value);
      forall i | 0 <= i < |kept|
        ensures kept[i] in h.pending && kept[i].intent.sequence > s.sequence.value
      {
        assert kept[i] in kept;
      }
    }
  }

  datatype Event = Sent(intent: MoveIntent, at: ClientTimeUs) | Received(snapshot: Snapshot)

  /** One event; an error leaves the history as it was. */
  function Step(h: History, e: Event): History {
    match e
    case Sent(intent, at) =>
      var r := RecordSent(h, intent, at);
      if r.Ok? then r.value else h
    case Received(s) =>
      var r := ApplySnapshot(h, s);
      if r.Ok? then r.value.1 else h
  }

  function RunEvents(h: History, events: seq<Event>): History
    decreases |events|
  {
    if events == [] then h else RunEvents(Step(h, events[0]), events[1..])
  }

  /** ACKs in `events` begin only after the first accepted send. */
  predicate AcksFollowSends(h: History, events: seq<Event>)
    decreases |events|
  {
    events != [] ==>
      && (events[0].Received? && h.highestSent.None? ==> events[0].snapshot.sequence.None?)
      && AcksFollowSends(Step(h, events[0]), events[1..])
  }

  /** Every such run, of any length, ends in a sound history. */
  lemma {:induction false} RunsStaySound(h: History, events: seq<Event>)
    requires Coherent(h) && AcksFollowSends(h, events)
    ensures Coherent(RunEvents(h, events))
    decreases |events|
  {
    if events != [] {
      match events[0] {
        case Sent(intent, at) =>
          if RecordSent(h, intent, at).Ok? { SendKeepsCoherent(h, intent, at); }
        case Received(s) =>
          if ApplySnapshot(h, s).Ok? { SnapshotKeepsCoherent(h, s); }
      }
      RunsStaySound(Step(h, events[0]), events[1..]);
    }
  }

  /** A snapshot that is rejected or ignored changes nothing; an applied one keeps exactly the
      inputs above the ACK. */
  lemma SnapshotEffect(h: History, s: Snapshot)
    ensures var r := ApplySnapshot(h, s);
            && (r.Err? || !r.value.0.Applied? ==> Step(h, Received(s)) == h)
            && (r.Ok? && r.value.0.Applied? ==>
                 var after := Step(h, Received(s));
                 && after.lastProcessed == s.sequence
                 && (forall t :: t in after.pending <==>
                       t in h.pending && (s.sequence.Some? ==> t.intent.sequence > s.sequence.value))
                 && r.value.0.acknowledged == |h.pending| - |after.pending|
                 && r.value.0.pending == |after.pending|)
  {
    if s.sequence.Some? { RetainAboveMembers(h.pending, s.sequence.value); }
  }

  // ----- Replay plans -----

  function TotalDuration(segments: seq<ReplaySegment>): nat {
    if segments == [] then 0
    else TotalDuration(segments[..|segments| - 1]) + segments[|segments| - 1].durationUs
  }

  /** Gap-free and non-overlapping. */
  predicate Contiguous(segments: seq<ReplaySegment>) {
    && (forall i :: 0 <= i < |segments| ==>
          && segments[i].startUs <= segments[i].endUs
          && segments[i].durationUs == segments[i].endUs - segments[i].startUs)
    && (forall i :: 0 < i < |segments| ==> segments[i - 1].endUs == segments[i].startUs)
  }

  /** Contiguous segments that end at `now`, with the total to match. */
  predicate IsPartition(plan: ReplayPlan, now: ClientTimeUs) {
    && plan.generatedAtUs == now
    && Contiguous(plan.segments)
    && (plan.segments == [] ==> plan.totalDurationUs == 0)
    && (plan.segments != [] ==>
          && plan.segments[|plan.segments| - 1].endUs == now
          && plan.totalDurationUs == now - plan.segments[0].startUs)
  }

  function SegmentAt(pending: seq<TimedInput>, i: nat, now: ClientTimeUs): ReplaySegment
    requires i < |pending|
  {
    var start := pending[i].sentAt;
    var end := if i + 1 < |pending| then pending[i + 1].sentAt else now;
    ReplaySegment(pending[i].intent, start, end, if start <= end then end - start else 0)
  }

  function Segments(pending: seq<TimedInput>, now: ClientTimeUs): seq<ReplaySegment> {
    seq(|pending|, i requires 0 <= i < |pending| => SegmentAt(pending, i, now))
  }

  lemma SegmentsPrefix(pending: seq<TimedInput>, i: nat, now: ClientTimeUs)
    requires i < |pending|
    ensures Segments(pending, now)[..i + 1] == Segments(pending, now)[..i] + [SegmentAt(pending, i, now)]
  {
  }

  /** The segments of inputs sent in order, none after `now`, meet end to end. */
  lemma SegmentsContiguous(pending: seq<TimedInput>, now: ClientTimeUs)
    requires forall i :: 0 <= i < |pending| ==> pending[i].sentAt <= now
    requires forall i :: 0 < i < |pending| ==> pending[i - 1].sentAt <= pending[i].sentAt
    ensures Contiguous(Segments(pending, now))
  {
  }

  /** The total duration of the first `n` segments, or what stops the plan before. */
  function PlannedTotal(pending: seq<TimedInput>, now: ClientTimeUs, n: nat): Result<u64, ReconciliationError>
    requires n <= |pending|
  {
    if n == 0 then Ok(0)
    else
      match PlannedTotal(pending, now, n - 1)
      case Err(e) => Err(e)
      case Ok(total) =>
        if pending[n - 1].sentAt > now then Err(TimeRegressed(pending[n - 1].sentAt, now))
        else if total + SegmentAt(pending, n - 1, now).durationUs > U64_MAX then Err(ReplayDurationOverflow)
        else Ok(total + SegmentAt(pending, n - 1, now).durationUs)
  }

  lemma {:induction false} PlanStops(pending: seq<TimedInput>, now: ClientTimeUs, n: nat, m: nat)
    requires n <= m <= |pending| && PlannedTotal(pending, now, n).Err?
    ensures PlannedTotal(pending, now, m) == PlannedTotal(pending, now, n)
  {
    if n < m {
      PlanStops(pending, now, n, m - 1);
    }
  }

  /** From a coherent history the plan partitions the time from the first pending input to now, and the
      only thing that stops it is an input that lies in the future. */
  lemma PlanIsPartition(h: History, now: ClientTimeUs)
    requires Coherent(h)
    ensures match PlannedTotal(h.pending, now, |h.pending|)
      case Ok(total) => IsPartition(ReplayPlan(now, total, Segments(h.pending, now)), now)
      case Err(e) =>
        exists i :: 0 <= i < |h.pending| && h.pending[i].sentAt > now && e == TimeRegressed(h.pending[i].sentAt, now)
  {
    TotalTelescopes(h.pending, now, |h.pending|);
    if PlannedTotal(h.pending, now, |h.pending|).Ok? {
      SegmentsContiguous(h.pending, now);
    }
  }

  /** The durations of inputs sent in order telescope, so the total never overflows. */
  lemma {:induction false} TotalTelescopes(pending: seq<TimedInput>, now: ClientTimeUs, n: nat)
    requires TimeOrdered(pending) && n <= |pending|
    ensures match PlannedTotal(pending, now, n)
      case Ok(total) =>
        && (forall i :: 0 <= i < n ==> pending[i].sentAt <= now)
        && total == (if n == 0 then 0 else SegmentAt(pending, n - 1, now).endUs - pending[0].sentAt)
      case Err(e) => exists i :: 0 <= i < n && pending[i].sentAt > now && e == TimeRegressed(pending[i].sentAt, now)
  {
    if n > 0 {
      TotalTelescopes(pending, now, n - 1);
    }
  }

  class ClientReconciler {
    var pending: seq<TimedInput>
    var capacity: nat
    var highestSent: Option<u64>
    var lastSentAt: Option<ClientTimeUs>
    var lastProcessed: Option<u64>
    var lastSnapshot: Option<Snapshot>

    function View(): History
      reads this
    {
      History(pending, capacity, highestSent, lastSentAt, lastProcessed, lastSnapshot)
    }

    constructor (capacity: nat)
      ensures View() == NewHistory(capacity)
    {
      this.pending, this.capacity := [], capacity;
      highestSent, lastSentAt, lastProcessed, lastSnapshot := None, None, None, None;
    }

    method RecordSentInput(intent: MoveIntent, sentAt: ClientTimeUs) returns (r: Result<(), ReconciliationError>)
      modifies this
      ensures match RecordSent(old(View()), intent, sentAt)
        case Ok(after) => r == Ok(()) && View() == after
        case Err(e) => r == Err(e) && View() == old(View())
    {
      if |pending| >= capacity {
        return Err(PendingHistoryFull);
      }
      if highestSent.Some? && intent.sequence <= highestSent.value {
        return Err(NonMonotonicSentInput(highestSent.value, intent.sequence));
      }
      if lastSentAt.Some? && sentAt < lastSentAt.value {
        return Err(NonMonotonicClientTime(lastSentAt.value, sentAt));
      }
      highestSent := Some(intent.sequence);
      lastSentAt := Some(sentAt);
      pending := pending + [TimedInput(intent, sentAt)];
      r := Ok(());
    }

    method ApplyAuthoritativeSnapshot(s: Snapshot) returns (r: Result<SnapshotOutcome, ReconciliationError>)
      modifies this
      ensures match ApplySnapshot(old(View()), s)
        case Ok((outcome, after)) => r == Ok(outcome) && View() == after
        case Err(e) => r == Err(e) && View() == old(View())
    {
      if lastSnapshot.Some? {
        var last := lastSnapshot.value;
        if s.serverTick < last.serverTick {
          return Ok(IgnoredStale(s.serverTick, last.serverTick));
        }
        if s.serverTick == last.serverTick {
          if s != last {
            return Err(ConflictingDuplicateSnapshot(s.serverTick));
          }
          return Ok(IgnoredDuplicate(s.serverTick));
        }
      }
      if lastProcessed.Some? {
        match s.sequence {
          case None => return Err(ProcessedInputAckDisappeared(lastProcessed.value));
          case Some(incoming) =>
            if incoming < lastProcessed.value {
              return Err(ProcessedInputAckRegressed(lastProcessed.value, incoming));
            }
        }
      }
      var initialPending := |pending|;
      if s.sequence.Some? {
        var ack := s.sequence.value;
        if highestSent.Some? && ack > highestSent.value {
          return Err(ProcessedInputAckUnknown(ack));
        }
        pending := RetainAbove(pending, ack);
      }
      var acknowledged := if |pending| <= initialPending then initialPending - |pending| else 0;
      lastProcessed, lastSnapshot := s.sequence, Some(s);
      r := Ok(Applied(acknowledged, |pending|));
    }

    /** A segment runs to the next pending input, or to now. */
    method SegmentOf(i: nat, now: ClientTimeUs) returns (segment: ReplaySegment)
      requires i < |pending|
      ensures segment == SegmentAt(pending, i, now)
    {
      var start := pending[i].sentAt;
      var end := if i + 1 < |pending| then pending[i + 1].sentAt else now;
      segment := ReplaySegment(pending[i].intent, start, end, if start <= end then end - start else 0);
    }

    /** One segment for each pending input, until one lies in the future or the total overflows. */
    method BuildReplayPlan(now: ClientTimeUs) returns (r: Result<ReplayPlan, ReconciliationError>)
      ensures match PlannedTotal(pending, now, |pending|)
        case Ok(total) => r == Ok(ReplayPlan(now, total, Segments(pending, now)))
        case Err(e) => r == Err(e)
    {
      var segments: seq<ReplaySegment> := [];
      var total: u64 := 0;
      for i := 0 to |pending|
        invariant segments == Segments(pending, now)[..i]
        invariant PlannedTotal(pending, now, i) == Ok(total)
      {
        if pending[i].sentAt > now {
          PlanStops(pending, now, i + 1, |pending|);
          return Err(TimeRegressed(pending[i].sentAt, now));
        }
        var segment := SegmentOf(i, now);
        if total + segment.durationUs > U64_MAX {
          PlanStops(pending, now, i + 1, |pending|);
          return Err(ReplayDurationOverflow);
        }
        total := total + segment.durationUs;
        SegmentsPrefix(pending, i, now);
        segments := segments + [segment];
      }
      assert Segments(pending, now)[..|pending|] == Segments(pending, now);
      r := Ok(ReplayPlan(now, total, segments));
    }
  }
}
