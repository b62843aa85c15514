/** Retries and timeouts of unacknowledged frontier manifests
    (apps/world-server/src/frontier_delivery.rs).  Instants are naturals. */
module FrontierDelivery {
  import opened MachineInts

  /** Any policy: nothing below needs the relations that its constructor checks. */
  datatype Policy = Policy(retryInterval: nat, ackTimeout: nat, maxRetries: u32)

  datatype Delivery = Delivery(revision: u64, startedAt: nat, nextRetryAt: nat, retriesSent: u32)

  type Deliveries = map<u64, Delivery>

  datatype Notice = Retry(revision: u64, attempt: u32) | Timeout(revision: u64, retriesSent: u32)

  datatype DeliveryAction = DeliveryAction(connection: u64, notice: Notice)

  function NewDelivery(p: Policy, revision: u64, now: nat): Delivery {
    Delivery(revision, now, now + p.retryInterval, 0)
  }

  /** One delivery looked at one instant: what is emitted, and what stays tracked. */
  function Evaluated(p: Policy, d: Delivery, now: nat): (Option<Notice>, Option<Delivery>)
  {
    if now >= d.startedAt + p.ackTimeout then (Some(Timeout(d.revision, d.retriesSent)), None)
    else if d.retriesSent >= p.maxRetries || now < d.nextRetryAt then (None, Some(d))
    else
      (Some(Retry(d.revision, d.retriesSent + 1)),
       Some(d.(retriesSent := d.retriesSent + 1, nextRetryAt := now + p.retryInterval)))
  }

  ghost predicate RetriesWithin(p: Policy, pending: Deliveries) {
    forall c :: c in pending ==> pending[c].retriesSent <= p.maxRetries
  }

  /** What one evaluation of the whole tracker does, in whatever order it visits the connections. */
  ghost predicate EvaluatesAll(p: Policy, pending: Deliveries, now: nat, actions: seq<DeliveryAction>,
                               after: Deliveries)
  {
    && (forall i, j :: 0 <= i < j < |actions| ==> actions[i].connection != actions[j].connection)
    && (forall a :: a in actions ==>
          a.connection in pending && Evaluated(p, pending[a.connection], now).0 == Some(a.notice))
    && (forall c :: c in pending && Evaluated(p, pending[c], now).0.Some? ==>
          DeliveryAction(c, Evaluated(p, pending[c], now).0.value) in actions)
    && (forall c :: c in after <==> c in pending && Evaluated(p, pending[c], now).1.Some?)
    && (forall c :: c in after ==> Some(after[c]) == Evaluated(p, pending[c], now).1)
  }

  // ----- Runs of a tracker -----

  datatype TrackerEvent =
    | Tracked(connection: u64, revision: u64, now: nat)
    | Acknowledged(connection: u64, revision: u64)
    | Forgotten(connection: u64)
    | EvaluatedAt(now: nat)

  function AckedDeliveries(pending: Deliveries, connection: u64, revision: u64): Deliveries {
    if connection in pending && pending[connection].revision == revision then pending - {connection} else pending
  }

  ghost predicate TrackerStep(p: Policy, pending: Deliveries, event: TrackerEvent, actions: seq<DeliveryAction>,
                              after: Deliveries)
  {
    match event
    case Tracked(c, revision, now) => actions == [] && after == pending[c := NewDelivery(p, revision, now)]
    case Acknowledged(c, revision) => actions == [] && after == AckedDeliveries(pending, c, revision)
    case Forgotten(c) => actions == [] && after == pending - {c}
    case EvaluatedAt(now) => EvaluatesAll(p, pending, now, actions, after)
  }

  function DeliveryOf(pending: Deliveries, c: u64): Option<Delivery> {
    if c in pending then Some(pending[c]) else None
  }

  /** One event seen from one connection: what it emits there, and what it leaves tracked. */
  function Watched(p: Policy, c: u64, d: Option<Delivery>, event: TrackerEvent): (Option<Notice>, Option<Delivery>)
  {
    match event
    case Tracked(other, revision, now) => (None, if other == c then Some(NewDelivery(p, revision, now)) else d)
    case Acknowledged(other, revision) =>
      (None, if other == c && d.Some? && d.value.revision == revision then None else d)
    case Forgotten(other) => (None, if other == c then None else d)
    case EvaluatedAt(now) => if d == None then (None, None) else Evaluated(p, d.value, now)
  }

  /** Every step of the tracker is, for each connection, that connection's own step: what it emits
      for the connection is what the connection's delivery alone decides. */
  lemma StepIsPerConnection(p: Policy, pending: Deliveries, event: TrackerEvent, actions: seq<DeliveryAction>,
                            after: Deliveries, c: u64)
    requires RetriesWithin(p, pending) && TrackerStep(p, pending, event, actions, after)
    ensures RetriesWithin(p, after)
    ensures var (notice, left) := Watched(p, c, DeliveryOf(pending, c), event);
            && DeliveryOf(after, c) == left
            && (forall n :: DeliveryAction(c, n) in actions <==> notice == Some(n))
  {
  }

  /** Everything one connection is sent, over all the events of a run. */
  function Emissions(p: Policy, c: u64, d: Option<Delivery>, events: seq<TrackerEvent>): seq<Notice>
    decreases |events|
  {
    if events == [] then []
    else
      var (notice, after) := Watched(p, c, d, events[0]);
      (if notice.Some? then [notice.value] else []) + Emissions(p, c, after, events[1..])
  }

  /** `out` continues a delivery that has sent `sent` retries: consecutively numbered retries up to
      the maximum, then at most one timeout that ends it. */
  ghost predicate Continues(p: Policy, revision: u64, sent: nat, out: seq<Notice>) {
    && sent + |out| <= p.maxRetries + 1
    && forall i :: 0 <= i < |out| ==>
         || (sent + i + 1 <= p.maxRetries && out[i] == Retry(revision, sent + i + 1))
         || (i == |out| - 1 && out[i] == Timeout(revision, sent + i))
  }

  predicate TracksAgain(events: seq<TrackerEvent>, c: u64) {
    exists i :: 0 <= i < |events| && events[i].Tracked? && events[i].connection == c
  }

  /** Acknowledged, forgotten or timed out, a connection is sent nothing until it is tracked again. */
  lemma {:induction false} SilentUntilTracked(p: Policy, c: u64, events: seq<TrackerEvent>)
    requires !TracksAgain(events, c)
    ensures Emissions(p, c, None, events) == []
    decreases |events|
  {
    if events != [] {
      assert !(events[0].Tracked? && events[0].connection == c);
      StillUntracked(events, c);
      SilentUntilTracked(p, c, events[1..]);
    }
  }

  lemma StillUntracked(events: seq<TrackerEvent>, c: u64)
    requires events != [] && !TracksAgain(events, c)
    ensures !TracksAgain(events[1..], c)
  {
  }

  lemma {:induction false} EmissionsContinue(p: Policy, c: u64, d: Delivery, events: seq<TrackerEvent>)
    requires d.retriesSent <= p.maxRetries && !TracksAgain(events, c)
    ensures Continues(p, d.revision, d.retriesSent, Emissions(p, c, Some(d), events))
    decreases |events|
  {
    if events != [] {
      assert !(events[0].Tracked? && events[0].connection == c);
      StillUntracked(events, c);
      var (notice, after) := Watched(p, c, Some(d), events[0]);
      var rest := Emissions(p, c, after, events[1..]);
      if after.Some? {
        EmissionsContinue(p, c, after.value, events[1..]);
      } else {
        SilentUntilTracked(p, c, events[1..]);
      }
      if notice.Some? && after.Some? {
        RetryContinues(p, d.revision, d.retriesSent, rest);
      }
      assert Emissions(p, c, Some(d), events) == (if notice.Some? then [notice.value] else []) + rest;
    }
  }

  lemma RetryContinues(p: Policy, revision: u64, sent: u32, rest: seq<Notice>)
    requires sent < p.maxRetries && Continues(p, revision, sent + 1, rest)
    ensures Continues(p, revision, sent, [Retry(revision, sent + 1)] + rest)
  {
    var out := [Retry(revision, sent + 1)] + rest;
    assert forall i :: 0 < i < |out| ==> out[i] == rest[i - 1];
  }

  // ----- Runs of the whole tracker -----

  /** The deliveries before and after each event, and what each event emitted. */
  ghost predicate TrackerRun(p: Policy, states: seq<Deliveries>, events: seq<TrackerEvent>,
                             emitted: seq<seq<DeliveryAction>>) {
    && |states| == |events| + 1 && |emitted| == |events| && RetriesWithin(p, states[0])
    && forall i {:trigger events[i]} :: 0 <= i < |events| ==>
         TrackerStep(p, states[i], events[i], emitted[i], states[i + 1])
  }

  /** What some actions send to one connection, in order. */
  function NoticesFor(c: u64, actions: seq<DeliveryAction>): seq<Notice> {
    if actions == [] then []
    else (if actions[0].connection == c then [actions[0].notice] else []) + NoticesFor(c, actions[1..])
  }

  /** What a run sends to one connection, in order. */
  function SentTo(c: u64, emitted: seq<seq<DeliveryAction>>): seq<Notice> {
    if emitted == [] then [] else NoticesFor(c, emitted[0]) + SentTo(c, emitted[1..])
  }

  lemma {:induction false} NoneForOthers(c: u64, actions: seq<DeliveryAction>)
    requires forall n :: DeliveryAction(c, n) !in actions
    ensures NoticesFor(c, actions) == []
    decreases |actions|
  {
    if actions != [] {
      assert actions[0] in actions;
      assert forall n :: DeliveryAction(c, n) !in actions[1..];
      NoneForOthers(c, actions[1..]);
    }
  }

  /** With one action for each connection, a connection is sent the one about it. */
  lemma {:induction false} OneNoticeEach(c: u64, actions: seq<DeliveryAction>, notice: Option<Notice>)
    requires forall i, j :: 0 <= i < j < |actions| ==> actions[i].connection != actions[j].connection
    requires forall n :: DeliveryAction(c, n) in actions <==> notice == Some(n)
    ensures NoticesFor(c, actions) == if notice.Some? then [notice.value] else []
    decreases |actions|
  {
    if actions != [] {
      var rest := actions[1..];
      if actions[0].connection == c {
        assert DeliveryAction(c, actions[0].notice) in actions;
        assert forall j :: 0 <= j < |rest| ==> rest[j] == actions[j + 1];
        NoneForOthers(c, rest);
      } else {
        forall n
          ensures DeliveryAction(c, n) in rest <==> notice == Some(n)
        {
          assert DeliveryAction(c, n) in actions <==> DeliveryAction(c, n) in rest;
        }
        OneNoticeEach(c, rest, notice);
      }
    }
  }

  lemma RunTail(p: Policy, states: seq<Deliveries>, events: seq<TrackerEvent>, emitted: seq<seq<DeliveryAction>>)
    requires TrackerRun(p, states, events, emitted) && events != []
    ensures TrackerRun(p, states[1..], events[1..], emitted[1..])
  {
    StepIsPerConnection(p, states[0], events[0], emitted[0], states[1], 0);
    forall i | 0 <= i < |events[1..]|
      ensures TrackerStep(p, states[1..][i], events[1..][i], emitted[1..][i], states[1..][i + 1])
    {
      assert TrackerStep(p, states[i + 1], events[i + 1], emitted[i + 1], states[i + 2]);
    }
  }

  /** Over any run, in whatever order each evaluation visits the connections, a connection is sent what
      its own delivery decides. */
  lemma {:induction false} RunIsPerConnection(
    p: Policy, states: seq<Deliveries>, events: seq<TrackerEvent>, emitted: seq<seq<DeliveryAction>>, c: u64)
    requires TrackerRun(p, states, events, emitted)
    ensures SentTo(c, emitted) == Emissions(p, c, DeliveryOf(states[0], c), events)
    decreases |events|
  {
    if events != [] {
      assert TrackerStep(p, states[0], events[0], emitted[0], states[1]);
      StepIsPerConnection(p, states[0], events[0], emitted[0], states[1], c);
      OneNoticeEach(c, emitted[0], Watched(p, c, DeliveryOf(states[0], c), events[0]).0);
      RunTail(p, states, events, emitted);
      RunIsPerConnection(p, states[1..], events[1..], emitted[1..], c);
    }
  }

  lemma {:induction false} RunFrom(
    p: Policy, states: seq<Deliveries>, events: seq<TrackerEvent>, emitted: seq<seq<DeliveryAction>>, i: nat)
    requires TrackerRun(p, states, events, emitted) && i <= |events|
    ensures TrackerRun(p, states[i..], events[i..], emitted[i..])
    decreases i
  {
    if i == 0 {
      assert states[0..] == states && events[0..] == events && emitted[0..] == emitted;
    } else {
      RunFrom(p, states, events, emitted, i - 1);
      RunTail(p, states[i - 1..], events[i - 1..], emitted[i - 1..]);
      assert states[i - 1..][1..] == states[i..] && events[i - 1..][1..] == events[i..]
               && emitted[i - 1..][1..] == emitted[i..];
    }
  }

  /** From a moment at which a connection has no delivery, a run sends it nothing until it is tracked. */
  lemma RunSilentUntilTracked(
    p: Policy, states: seq<Deliveries>, events: seq<TrackerEvent>, emitted: seq<seq<DeliveryAction>>, i: nat, c: u64)
    requires TrackerRun(p, states, events, emitted) && i <= |events|
    requires c !in states[i] && !TracksAgain(events[i..], c)
    ensures SentTo(c, emitted[i..]) == []
  {
    RunFrom(p, states, events, emitted, i);
    RunIsPerConnection(p, states[i..], events[i..], emitted[i..], c);
    SilentUntilTracked(p, c, events[i..]);
  }

  /** For each revision tracked in a run, until the connection is tracked again: it is sent at most
      `maxRetries` retries numbered from one and then at most one timeout, and nothing after its
      acknowledgement. */
  lemma RunRevisionEmits(
    p: Policy, states: seq<Deliveries>, events: seq<TrackerEvent>, emitted: seq<seq<DeliveryAction>>,
    i: nat, c: u64, revision: u64, now: nat)
    requires TrackerRun(p, states, events, emitted) && i < |events| && events[i] == Tracked(c, revision, now)
    requires !TracksAgain(events[i + 1..], c)
    ensures Continues(p, revision, 0, SentTo(c, emitted[i + 1..]))
    ensures forall k :: i < k < |events| && events[k] == Acknowledged(c, revision) ==> SentTo(c, emitted[k + 1..]) == []
  {
    assert TrackerStep(p, states[i], events[i], emitted[i], states[i + 1]);
    RunFrom(p, states, events, emitted, i + 1);
    RunIsPerConnection(p, states[i + 1..], events[i + 1..], emitted[i + 1..], c);
    EmissionsContinue(p, c, NewDelivery(p, revision, now), events[i + 1..]);
    forall k | i < k < |events| && events[k] == Acknowledged(c, revision)
      ensures SentTo(c, emitted[k + 1..]) == []
    {
      RevisionStays(p, states, events, emitted, i, k, c, revision, now);
      assert TrackerStep(p, states[k], events[k], emitted[k], states[k + 1]);
      LaterUntracked(events, i + 1, k + 1, c);
      RunSilentUntilTracked(p, states, events, emitted, k + 1, c);
    }
  }

  lemma LaterUntracked(events: seq<TrackerEvent>, i: nat, k: nat, c: u64)
    requires i <= k <= |events| && !TracksAgain(events[i..], c)
    ensures !TracksAgain(events[k..], c)
  {
    assert events[k..] == events[i..][k - i..];
  }

  /** Until a connection is tracked again, its delivery carries the revision it was tracked for. */
  lemma {:induction false} RevisionStays(
    p: Policy, states: seq<Deliveries>, events: seq<TrackerEvent>, emitted: seq<seq<DeliveryAction>>,
    i: nat, k: nat, c: u64, revision: u64, now: nat)
    requires TrackerRun(p, states, events, emitted) && i < k <= |events| && events[i] == Tracked(c, revision, now)
    requires !TracksAgain(events[i + 1..], c)
    ensures c in states[k] ==> states[k][c].revision == revision
    decreases k
  {
    assert TrackerStep(p, states[k - 1], events[k - 1], emitted[k - 1], states[k]);
    if i + 1 < k {
      RevisionStays(p, states, events, emitted, i, k - 1, c, revision, now);
      assert events[i + 1..][k - 2 - i] == events[k - 1];
      RunFrom(p, states, events, emitted, k - 1);
      StepIsPerConnection(p, states[k - 1], events[k - 1], emitted[k - 1], states[k], c);
    }
  }

  // ----- The tracker -----

  /** `EvaluatesAll` for the connections not in `left`. */
  ghost predicate EvaluatesExcept(
    p: Policy, pending: Deliveries, now: nat, left: set<u64>, actions: seq<DeliveryAction>, after: Deliveries)
  {
    && (forall i, j :: 0 <= i < j < |actions| ==> actions[i].connection != actions[j].connection)
    && (forall a :: a in actions ==>
          a.connection in pending && a.connection !in left
            && Evaluated(p, pending[a.connection], now).0 == Some(a.notice))
    && (forall c :: c in pending && c !in left && Evaluated(p, pending[c], now).0.Some? ==>
          DeliveryAction(c, Evaluated(p, pending[c], now).0.value) in actions)
    && (forall c :: c in after <==> c in pending && (c in left || Evaluated(p, pending[c], now).1.Some?))
    && (forall c :: c in after ==>
          Some(after[c]) == if c in left then Some(pending[c]) else Evaluated(p, pending[c], now).1)
  }

  lemma VisitOne(p: Policy, pending: Deliveries, now: nat, left: set<u64>, actions: seq<DeliveryAction>,
                 after: Deliveries, c: u64)
    requires RetriesWithin(p, pending) && EvaluatesExcept(p, pending, now, left, actions, after)
    requires c in left && c in pending
    ensures var (notice, kept) := Evaluated(p, pending[c], now);
            EvaluatesExcept(p, pending, now, left - {c},
              if notice.Some? then actions + [DeliveryAction(c, notice.value)] else actions,
              if kept.Some? then after[c := kept.value] else after - {c})
  {
  }

  class FrontierDeliveryTracker {
    const policy: Policy
    var pending: Deliveries

    ghost predicate Valid()
      reads this
    {
      RetriesWithin(policy, pending)
    }

    constructor (policy: Policy)
      ensures Valid() && pending == map[] && this.policy == policy
    {
      this.policy := policy;
      pending := map[];
    }

    method Track(connection: u64, revision: u64, now: nat)
      requires Valid()
      modifies this
      ensures Valid() && pending == old(pending)[connection := NewDelivery(policy, revision, now)]
    {
      pending := pending[connection := Delivery(revision, now, now + policy.retryInterval, 0)];
    }

    method Acknowledge(connection: u64, revision: u64) returns (removed: bool)
      requires Valid()
      modifies this
      ensures Valid() && pending == AckedDeliveries(old(pending), connection, revision)
      ensures removed <==> connection in old(pending) && old(pending)[connection].revision == revision
    {
      if connection !in pending || pending[connection].revision != revision {
        return false;
      }
      pending := pending - {connection};
      removed := true;
    }

    method Remove(connection: u64)
      requires Valid()
      modifies this
      ensures Valid() && pending == old(pending) - {connection}
    {
      pending := pending - {connection};
    }

    /** Looks at one tracked delivery. */
    method EvaluateOne(connection: u64, now: nat) returns (notice: Option<Notice>)
      requires Valid() && connection in pending
      modifies this
      ensures Valid() && notice == Evaluated(policy, old(pending)[connection], now).0
      ensures var kept := Evaluated(policy, old(pending)[connection], now).1;
              pending == if kept.Some? then old(pending)[connection := kept.value] else old(pending) - {connection}
    {
      var delivery := pending[connection];
      if now >= delivery.startedAt + policy.ackTimeout {
        pending := pending - {connection};
        return Some(Timeout(delivery.revision, delivery.retriesSent));
      }
      if delivery.retriesSent >= policy.maxRetries || now < delivery.nextRetryAt {
        return None;
      }
      var sent: u32 := delivery.retriesSent + 1;
      pending := pending[connection := delivery.(retriesSent := sent, nextRetryAt := now + policy.retryInterval)];
      notice := Some(Retry(delivery.revision, sent));
    }

    method Evaluate(now: nat) returns (actions: seq<DeliveryAction>)
      requires Valid()
      modifies this
      ensures Valid() && EvaluatesAll(policy, old(pending), now, actions, pending)
    {
      ghost var before := pending;
      var left := pending.Keys;
      actions := [];
      while left != {}
        invariant left <= before.Keys && Valid()
        invariant EvaluatesExcept(policy, before, now, left, actions, pending)
        decreases |left|
      {
        var connection :| connection in left;
        VisitOne(policy, before, now, left, actions, pending, connection);
        left := left - {connection};
        var notice := EvaluateOne(connection, now);
        if notice.Some? {
          actions := actions + [DeliveryAction(connection, notice.value)];
        }
      }
    }
  }
}
