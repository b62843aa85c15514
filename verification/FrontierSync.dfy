/** The per-connection acknowledgement barrier (apps/world-server/src/frontier_sync.rs). */
module FrontierSync {
  import opened MachineInts

  datatype SyncState = Pending(revision: u64) | Synced(revision: u64)

  datatype AckOutcome =
    | Synchronized(revision: u64)
    | DuplicateAck(revision: u64)
    | StaleAck(expected: u64, received: u64)

  datatype SyncError =
    | ZeroSyncRevision
    | DuplicateSync(connection: u64)
    | UnknownSync(connection: u64)
    | FutureAck(connection: u64, expected: u64, received: u64)

  type SyncMap = map<u64, SyncState>

  function RegisteredPending(sync: SyncMap, connection: u64, revision: u64): Result<SyncMap, SyncError> {
    if revision == 0 then Err(ZeroSyncRevision)
    else if connection in sync then Err(DuplicateSync(connection))
    else Ok(sync[connection := Pending(revision)])
  }

  function AllPending(sync: SyncMap, revision: u64): SyncMap {
    map c | c in sync :: Pending(revision)
  }

  function Acked(sync: SyncMap, connection: u64, received: u64): Result<(AckOutcome, SyncMap), SyncError> {
    if received == 0 then Err(ZeroSyncRevision)
    else if connection !in sync then Err(UnknownSync(connection))
    else
      var expected := sync[connection].revision;
      if received < expected then Ok((StaleAck(expected, received), sync))
      else if received > expected then Err(FutureAck(connection, expected, received))
      else
        match sync[connection]
        case Pending(revision) => Ok((Synchronized(revision), sync[connection := Synced(revision)]))
        case Synced(revision) => Ok((DuplicateAck(revision), sync))
  }

  /** Only the acknowledgement of the very revision a connection waits for lifts its barrier, and
      no acknowledgement lowers a barrier, changes a revision or touches another connection. */
  lemma OnlyCurrentAckSyncs(sync: SyncMap, connection: u64, received: u64, other: u64)
    requires Acked(sync, connection, received).Ok?
    ensures var (outcome, after) := Acked(sync, connection, received).value;
            && after.Keys == sync.Keys
            && (other in sync ==>
                  && after[other].revision == sync[other].revision
                  && (after[other].Synced? <==>
                        sync[other].Synced? || (other == connection && received == sync[other].revision)))
  {
  }

  class FrontierSyncRegistry {
    var byConnection: SyncMap

    constructor ()
      ensures byConnection == map[]
    {
      byConnection := map[];
    }

    method RegisterPending(connection: u64, revision: u64) returns (r: Result<(), SyncError>)
      modifies this
      ensures match RegisteredPending(old(byConnection), connection, revision)
        case Ok(after) => r == Ok(()) && byConnection == after
        case Err(e) => r == Err(e) && byConnection == old(byConnection)
    {
      if revision == 0 {
        return Err(ZeroSyncRevision);
      }
      if connection in byConnection {
        return Err(DuplicateSync(connection));
      }
      byConnection := byConnection[connection := Pending(revision)];
      r := Ok(());
    }

    method MarkAllPending(revision: u64) returns (r: Result<nat, SyncError>)
      modifies this
      ensures revision == 0 ==> r == Err(ZeroSyncRevision) && byConnection == old(byConnection)
      ensures revision != 0 ==> r == Ok(|old(byConnection)|) && byConnection == AllPending(old(byConnection), revision)
    {
      if revision == 0 {
        return Err(ZeroSyncRevision);
      }
      ghost var before := byConnection;
      var left := byConnection.Keys;
      while left != {}
        invariant byConnection.Keys == before.Keys && left <= before.Keys
        invariant forall c :: c in before && c !in left ==> byConnection[c] == Pending(revision)
        decreases |left|
      {
        var c :| c in left;
        left := left - {c};
        byConnection := byConnection[c := Pending(revision)];
      }
      assert |byConnection| == |byConnection.Keys| == |before.Keys| == |before|;
      r := Ok(|byConnection|);
    }

    method ApplyAck(connection: u64, received: u64) returns (r: Result<AckOutcome, SyncError>)
      modifies this
      ensures match Acked(old(byConnection), connection, received)
        case Ok((outcome, after)) => r == Ok(outcome) && byConnection == after
        case Err(e) => r == Err(e) && byConnection == old(byConnection)
    {
      if received == 0 {
        return Err(ZeroSyncRevision);
      }
      if connection !in byConnection {
        return Err(UnknownSync(connection));
      }
      var state := byConnection[connection];
      var expected := state.revision;
      if received < expected {
        return Ok(StaleAck(expected, received));
      }
      if received > expected {
        return Err(FutureAck(connection, expected, received));
      }
      match state {
        case Pending(revision) =>
          byConnection := byConnection[connection := Synced(revision)];
          r := Ok(Synchronized(revision));
        case Synced(revision) =>
          r := Ok(DuplicateAck(revision));
      }
    }

    method IsSynced(connection: u64) returns (synced: bool)
      ensures synced <==> connection in byConnection && byConnection[connection].Synced?
    {
      synced := connection in byConnection && byConnection[connection].Synced?;
    }

    method Remove(connection: u64)
      modifies this
      ensures byConnection == old(byConnection) - {connection}
    {
      byConnection := byConnection - {connection};
    }
  }
}
