/** The acknowledgement barrier and the delivery tracker together, against the authoritative
    revision (apps/world-server/src/session_runtime.rs). */
module FrontierBarrier {
  import opened MachineInts
  import opened FrontierSync
  import opened FrontierDelivery

  /** The authoritative revision, the connections with a reliable sender, their barriers and the
      deliveries being tracked. */
  datatype Barrier = Barrier(revision: u64, connected: set<u64>, sync: SyncMap, pending: Deliveries) {
    predicate SyncedNow(c: u64) { c in sync && sync[c] == Synced(revision) }
  }

  datatype BarrierEvent =
    | Nothing
    | Admit(connection: u64, now: nat)
    | Ack(connection: u64, received: u64)
    | Drop(connection: u64)
    | Reveal(now: nat)
    | Tick(now: nat, actions: seq<DeliveryAction>, unsent: set<u64>)

  /** Every registered connection is at the authoritative revision; a tracked delivery carries that
      revision and belongs to a connection still waiting for it. */
  ghost predicate BarrierInvariant(p: Policy, b: Barrier) {
    && b.revision != 0
    && b.connected == b.sync.Keys
    && (forall c :: c in b.sync ==> b.sync[c].revision == b.revision)
    && (forall c :: c in b.pending ==> c in b.sync && b.sync[c].Pending? && b.pending[c].revision == b.revision)
    && RetriesWithin(p, b.pending)
  }

  lemma NobodyBehindBarrier(p: Policy, revision: u64)
    requires revision != 0
    ensures BarrierInvariant(p, Barrier(revision, {}, map[], map[]))
  {
  }

  /** `pending` with a fresh delivery for each of the given connections. */
  function TrackedAll(p: Policy, pending: Deliveries, connections: set<u64>, revision: u64, now: nat): Deliveries {
    map c | c in pending.Keys + connections :: if c in connections then NewDelivery(p, revision, now) else pending[c]
  }

  lemma TrackOneMore(p: Policy, pending: Deliveries, connections: set<u64>, c: u64, revision: u64, now: nat)
    ensures TrackedAll(p, pending, connections + {c}, revision, now)
            == TrackedAll(p, pending, connections, revision, now)[c := NewDelivery(p, revision, now)]
  {
  }

  function AfterAdmit(p: Policy, b: Barrier, c: u64, now: nat): Barrier {
    b.(connected := b.connected + {c}, sync := b.sync[c := Pending(b.revision)],
       pending := b.pending[c := NewDelivery(p, b.revision, now)])
  }

  function AfterAck(b: Barrier, c: u64, received: u64): Barrier {
    match Acked(b.sync, c, received)
    case Ok((Synchronized(revision), sync)) => b.(sync := sync, pending := AckedDeliveries(b.pending, c, revision))
    case _ => b
  }

  function AfterDrop(b: Barrier, c: u64): Barrier {
    b.(connected := b.connected - {c}, sync := b.sync - {c}, pending := b.pending - {c})
  }

  function AfterReveal(p: Policy, b: Barrier, now: nat): Barrier
    requires b.revision < U64_MAX
  {
    Barrier(b.revision + 1, b.connected, AllPending(b.sync, b.revision + 1),
            TrackedAll(p, b.pending, b.connected, b.revision + 1, now))
  }

  ghost predicate BarrierStep(p: Policy, b: Barrier, event: BarrierEvent, after: Barrier)
  {
    match event
    case Nothing => after == b
    case Admit(c, now) => c !in b.connected && after == AfterAdmit(p, b, c, now)
    case Ack(c, received) => c in b.connected && after == AfterAck(b, c, received)
    case Drop(c) => after == AfterDrop(b, c)
    case Reveal(now) => b.revision < U64_MAX && after == AfterReveal(p, b, now)
    case Tick(now, actions, unsent) =>
      && (exists kept :: EvaluatesAll(p, b.pending, now, actions, kept) && after.pending == kept - unsent)
      && after == b.(pending := after.pending)
  }

  lemma StepKeepsBarrier(p: Policy, b: Barrier, event: BarrierEvent, after: Barrier)
    requires BarrierInvariant(p, b) && BarrierStep(p, b, event, after)
    ensures BarrierInvariant(p, after)
  {
    if event.Tick? {
      var kept :| EvaluatesAll(p, b.pending, event.now, event.actions, kept) && after.pending == kept - event.unsent;
      TickKeepsDeliveries(p, b, event.now, event.actions, kept);
    }
  }

  lemma TickKeepsDeliveries(p: Policy, b: Barrier, now: nat, actions: seq<DeliveryAction>, kept: Deliveries)
    requires BarrierInvariant(p, b) && EvaluatesAll(p, b.pending, now, actions, kept)
    ensures forall c :: c in kept ==>
              c in b.pending && kept[c].revision == b.revision && kept[c].retriesSent <= p.maxRetries
  {
    forall c | c in kept
      ensures c in b.pending && kept[c].revision == b.revision && kept[c].retriesSent <= p.maxRetries
    {
      assert Some(kept[c]) == Evaluated(p, b.pending[c], now).1;
    }
  }

  /** Every retry and timeout is about the authoritative revision and a connection still waiting. */
  lemma ActionsAreCurrent(p: Policy, b: Barrier, now: nat, actions: seq<DeliveryAction>, kept: Deliveries,
                          a: DeliveryAction)
    requires BarrierInvariant(p, b) && EvaluatesAll(p, b.pending, now, actions, kept) && a in actions
    ensures a.notice.revision == b.revision && a.connection in b.connected && !b.SyncedNow(a.connection)
  {
  }

  lemma ActionsAllCurrent(p: Policy, b: Barrier, now: nat, actions: seq<DeliveryAction>, kept: Deliveries)
    requires BarrierInvariant(p, b) && EvaluatesAll(p, b.pending, now, actions, kept)
    ensures forall i :: 0 <= i < |actions| ==>
              actions[i].connection in b.connected && actions[i].notice.revision == b.revision
  {
    forall i | 0 <= i < |actions|
      ensures actions[i].connection in b.connected && actions[i].notice.revision == b.revision
    {
      ActionsAreCurrent(p, b, now, actions, kept, actions[i]);
    }
  }

  /** The only way to pass the barrier is to acknowledge the authoritative revision. */
  lemma SyncedOnlyByCurrentAck(p: Policy, b: Barrier, event: BarrierEvent, after: Barrier, c: u64)
    requires BarrierInvariant(p, b) && BarrierStep(p, b, event, after)
    requires !b.SyncedNow(c) && after.SyncedNow(c)
    ensures event == Ack(c, after.revision) && after.revision == b.revision
    ensures c !in after.pending
  {
  }

  /** A reveal closes the barrier of every connection and tracks the new revision for each. */
  lemma RevealClosesEveryBarrier(p: Policy, b: Barrier, now: nat, c: u64)
    requires BarrierInvariant(p, b) && b.revision < U64_MAX
    ensures var after := AfterReveal(p, b, now);
            && after.revision == b.revision + 1 && !after.SyncedNow(c)
            && (c in after.pending <==> c in b.connected)
            && (c in after.pending ==> after.pending[c] == NewDelivery(p, after.revision, now))
  {
  }

  ghost predicate BarrierRun(p: Policy, states: seq<Barrier>, events: seq<BarrierEvent>) {
    && |states| == |events| + 1
    && BarrierInvariant(p, states[0])
    && forall i {:trigger events[i]} :: 0 <= i < |events| ==> BarrierStep(p, states[i], events[i], states[i + 1])
  }

  lemma {:induction false} RunKeepsBarrier(p: Policy, states: seq<Barrier>, events: seq<BarrierEvent>, i: nat)
    requires BarrierRun(p, states, events) && i < |states|
    ensures BarrierInvariant(p, states[i])
  {
    if i > 0 {
      RunKeepsBarrier(p, states, events, i - 1);
      StepKeepsBarrier(p, states[i - 1], events[i - 1], states[i]);
    }
  }

  /** A connection that is past the barrier acknowledged the revision that is authoritative now, at
      some point of the run after which neither it was dropped nor anything was revealed. */
  lemma {:induction false} SyncedMeansAcknowledged(p: Policy, states: seq<Barrier>, events: seq<BarrierEvent>,
                                                   i: nat, c: u64)
    returns (k: nat)
    requires BarrierRun(p, states, events) && i < |states| && states[i].SyncedNow(c) && !states[0].SyncedNow(c)
    ensures k < i && events[k] == Ack(c, states[i].revision)
    ensures forall j :: k < j <= i ==> states[j].SyncedNow(c) && states[j].revision == states[i].revision
  {
    RunKeepsBarrier(p, states, events, i);
    RunKeepsBarrier(p, states, events, i - 1);
    if states[i - 1].SyncedNow(c) {
      k := SyncedMeansAcknowledged(p, states, events, i - 1, c);
      SyncedKeepsRevision(p, states[i - 1], events[i - 1], states[i], c);
    } else {
      k := i - 1;
      SyncedOnlyByCurrentAck(p, states[i - 1], events[i - 1], states[i], c);
    }
  }

  lemma SyncedKeepsRevision(p: Policy, b: Barrier, event: BarrierEvent, after: Barrier, c: u64)
    requires BarrierInvariant(p, b) && BarrierStep(p, b, event, after)
    requires b.SyncedNow(c) && after.SyncedNow(c)
    ensures after.revision == b.revision
  {
  }
}
