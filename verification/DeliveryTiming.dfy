/** When a tracked manifest is sent again and when it times out, over every run of the tracker
    (apps/world-server/src/frontier_delivery.rs). */
module DeliveryTiming {
  import opened MachineInts
  import opened FrontierDelivery

  /** From the tracking event at `i` to just before `j` the connection's delivery stays open: nothing
      tracks it anew, acknowledges its revision, forgets it or lets it time out. */
  ghost predicate Open(events: seq<TrackerEvent>, emitted: seq<seq<DeliveryAction>>, c: u64, revision: u64, i: nat,
                       j: nat)
    requires |events| == |emitted|
  {
    forall k :: i < k < j < |events| ==> LeftOpen(events[k], emitted[k], c, revision)
  }

  ghost predicate LeftOpen(event: TrackerEvent, actions: seq<DeliveryAction>, c: u64, revision: u64) {
    && event != Forgotten(c) && event != Acknowledged(c, revision)
    && !(event.Tracked? && event.connection == c)
    && forall a :: a in actions && a.connection == c ==> a.notice.Retry?
  }

  /** The connection is sent a retry by this event. */
  predicate Resends(event: TrackerEvent, actions: seq<DeliveryAction>, c: u64) {
    event.EvaluatedAt? && exists k :: 0 <= k < |actions| && actions[k].connection == c && actions[k].notice.Retry?
  }

  /** The instants at which retries were sent to the connection by the events from `i` to before `j`. */
  function RetryInstants(
    events: seq<TrackerEvent>, emitted: seq<seq<DeliveryAction>>, c: u64, i: nat, j: nat): (instants: seq<nat>)
    requires |events| == |emitted| && i <= j <= |events|
    ensures |instants| <= j - i
  {
    if i == j then []
    else
      RetryInstants(events, emitted, c, i, j - 1)
      + if Resends(events[j - 1], emitted[j - 1], c) then [events[j - 1].now] else []
  }

  /** The last instant at which the manifest was sent: by a retry, or when it was first tracked. */
  function LastSent(instants: seq<nat>, tracked: nat): nat {
    if instants == [] then tracked else instants[|instants| - 1]
  }

  /** What is due at an instant, for a manifest tracked at `tracked` and sent again at these instants. */
  function DueNotice(p: Policy, revision: u64, tracked: nat, instants: seq<nat>, now: nat): Option<Notice>
    requires |instants| <= p.maxRetries
  {
    if tracked + p.ackTimeout <= now then Some(Timeout(revision, |instants|))
    else if |instants| < p.maxRetries && LastSent(instants, tracked) + p.retryInterval <= now
    then Some(Retry(revision, |instants| + 1))
    else None
  }

  /** The delivery that this history leaves. */
  predicate DeliveryIs(p: Policy, d: Option<Delivery>, revision: u64, tracked: nat, instants: seq<nat>) {
    && |instants| <= p.maxRetries
    && d == Some(Delivery(revision, tracked, LastSent(instants, tracked) + p.retryInterval, |instants|))
  }

  /** One event of an open delivery. */
  lemma StepLeavesDelivery(
    p: Policy, pending: Deliveries, event: TrackerEvent, actions: seq<DeliveryAction>, after: Deliveries,
    c: u64, revision: u64, tracked: nat, instants: seq<nat>)
    requires RetriesWithin(p, pending) && TrackerStep(p, pending, event, actions, after)
    requires DeliveryIs(p, DeliveryOf(pending, c), revision, tracked, instants)
    requires LeftOpen(event, actions, c, revision)
    ensures DeliveryIs(p, DeliveryOf(after, c), revision, tracked,
                       instants + if Resends(event, actions, c) then [event.now] else [])
  {
    StepIsPerConnection(p, pending, event, actions, after, c);
    var (notice, left) := Watched(p, c, DeliveryOf(pending, c), event);
    if event.EvaluatedAt? {
      NoticeAmongActions(actions, c, notice);
    }
  }

  lemma NoticeAmongActions(actions: seq<DeliveryAction>, c: u64, notice: Option<Notice>)
    requires forall n :: DeliveryAction(c, n) in actions <==> notice == Some(n)
    ensures (exists k :: 0 <= k < |actions| && actions[k].connection == c && actions[k].notice.Retry?)
      <==> notice.Some? && notice.value.Retry?
    ensures notice.Some? ==> exists k :: 0 <= k < |actions| && actions[k] == DeliveryAction(c, notice.value)
  {
    if k :| 0 <= k < |actions| && actions[k].connection == c && actions[k].notice.Retry? {
      assert actions[k] == DeliveryAction(c, actions[k].notice);
      assert DeliveryAction(c, actions[k].notice) in actions;
    }
    if notice.Some? {
      assert DeliveryAction(c, notice.value) in actions;
    }
  }

  lemma StepDecides(
    p: Policy, pending: Deliveries, now: nat, actions: seq<DeliveryAction>, after: Deliveries,
    c: u64, revision: u64, tracked: nat, instants: seq<nat>)
    requires RetriesWithin(p, pending) && TrackerStep(p, pending, EvaluatedAt(now), actions, after)
    requires DeliveryIs(p, DeliveryOf(pending, c), revision, tracked, instants)
    ensures forall n :: DeliveryAction(c, n) in actions <==> DueNotice(p, revision, tracked, instants, now) == Some(n)
  {
    StepIsPerConnection(p, pending, EvaluatedAt(now), actions, after, c);
  }

  lemma {:induction false} RunStaysWithin(
    p: Policy, states: seq<Deliveries>, events: seq<TrackerEvent>, emitted: seq<seq<DeliveryAction>>, n: nat)
    requires TrackerRun(p, states, events, emitted) && n <= |events|
    ensures RetriesWithin(p, states[n])
  {
    if n > 0 {
      RunStaysWithin(p, states, events, emitted, n - 1);
      StepIsPerConnection(p, states[n - 1], events[n - 1], emitted[n - 1], states[n], 0);
    }
  }

  lemma {:induction false} RunLeavesDelivery(
    p: Policy, states: seq<Deliveries>, events: seq<TrackerEvent>, emitted: seq<seq<DeliveryAction>>,
    c: u64, revision: u64, tracked: nat, i: nat, j: nat)
    requires TrackerRun(p, states, events, emitted) && i < j <= |events|
    requires events[i] == Tracked(c, revision, tracked)
    requires forall k :: i < k < j ==> LeftOpen(events[k], emitted[k], c, revision)
    ensures DeliveryIs(p, DeliveryOf(states[j], c), revision, tracked, RetryInstants(events, emitted, c, i + 1, j))
    decreases j
  {
    assert TrackerStep(p, states[j - 1], events[j - 1], emitted[j - 1], states[j]);
    if j > i + 1 {
      RunLeavesDelivery(p, states, events, emitted, c, revision, tracked, i, j - 1);
      RunStaysWithin(p, states, events, emitted, j - 1);
      StepLeavesDelivery(p, states[j - 1], events[j - 1], emitted[j - 1], states[j], c, revision, tracked,
                         RetryInstants(events, emitted, c, i + 1, j - 1));
    }
  }

  /** Over any run, an evaluation sends the connection of an open delivery exactly what is due: the timeout
      once the manifest has been tracked for the acknowledgement timeout; before that, the next retry once
      the retry interval has passed since the manifest was last sent, while retries are left; and
      otherwise nothing. */
  lemma SentExactlyWhenDue(
    p: Policy, states: seq<Deliveries>, events: seq<TrackerEvent>, emitted: seq<seq<DeliveryAction>>,
    c: u64, revision: u64, tracked: nat, now: nat, i: nat, j: nat)
    requires TrackerRun(p, states, events, emitted) && i < j < |events|
    requires events[i] == Tracked(c, revision, tracked) && events[j] == EvaluatedAt(now)
    requires Open(events, emitted, c, revision, i, j)
    ensures var instants := RetryInstants(events, emitted, c, i + 1, j);
            && |instants| <= p.maxRetries
            && forall n :: DeliveryAction(c, n) in emitted[j] <==>
                             DueNotice(p, revision, tracked, instants, now) == Some(n)
  {
    RunLeavesDelivery(p, states, events, emitted, c, revision, tracked, i, j);
    RunStaysWithin(p, states, events, emitted, j);
    assert TrackerStep(p, states[j], events[j], emitted[j], states[j + 1]);
    StepDecides(p, states[j], now, emitted[j], states[j + 1], c, revision, tracked,
                RetryInstants(events, emitted, c, i + 1, j));
  }
}
