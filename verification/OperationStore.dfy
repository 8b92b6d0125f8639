/** Operation records: claim before executing, complete afterwards, recover on restart, prune by age and count. */
module OperationStore {
  import opened Prelude

  type DeviceId = string
  type OperationId = string

  datatype OperationKey = OperationKey(deviceId: DeviceId, operationId: OperationId)

  /** A mutating request; two requests have the same hash exactly when they are equal. */
  type ControlRequest = string

  datatype ResponseOutcome = Success(response: string) | Failed(code: string)

  datatype OperationStatus = Pending | Completed(outcome: ResponseOutcome) | Indeterminate

  datatype OperationRecord = OperationRecord(request: ControlRequest, status: OperationStatus, createdAtMs: nat)

  type Operations = map<OperationKey, OperationRecord>

  datatype OperationClaim = Execute | InProgress | Replayed(outcome: ResponseOutcome) | Unknown

  datatype OperationError = ConflictingRequest | NotPending | StorageFailed

  /** SQLite integers are signed 64-bit; a larger time is refused before the statement runs. */
  const SQL_MAX: nat := 0x7FFF_FFFF_FFFF_FFFF

  // ----- what each statement does to the table -----

  function Claim(ops: Operations, key: OperationKey, request: ControlRequest, nowMs: nat)
    : (Operations, Result<OperationClaim, OperationError>)
  {
    if nowMs > SQL_MAX then (ops, Err(StorageFailed))
    else if key !in ops then (ops[key := OperationRecord(request, Pending, nowMs)], Ok(Execute))
    else if ops[key].request != request then (ops, Err(ConflictingRequest))
    else (ops, Ok(match ops[key].status
                  case Pending => InProgress
                  case Indeterminate => Unknown
                  case Completed(outcome) => Replayed(outcome)))
  }

  function Complete(ops: Operations, key: OperationKey, outcome: ResponseOutcome, nowMs: nat)
    : (Operations, Result<(), OperationError>)
  {
    if nowMs > SQL_MAX then (ops, Err(StorageFailed))
    else if key in ops && ops[key].status.Pending? then
      (ops[key := ops[key].(status := Completed(outcome))], Ok(()))
    else (ops, Err(NotPending))
  }

  /** On restart no one can tell whether a pending operation ran. */
  function Recover(ops: Operations): Operations {
    map key | key in ops :: if ops[key].status.Pending? then ops[key].(status := Indeterminate) else ops[key]
  }

  datatype AgentLifecycle = Starting | Idle | Running | Stopping | Stopped | Interrupted | FailedLifecycle

  datatype AgentRow = AgentRow(
    lifecycle: AgentLifecycle, failureReason: Option<string>, processId: Option<nat>, activeRunId: Option<string>,
    createdAtMs: nat, updatedAtMs: nat)

  type AgentRows = map<string, AgentRow>

  /** An agent that was busy when the daemon died is interrupted, without a process or a run. */
  function RecoverAgents(rows: AgentRows, nowMs: nat): AgentRows {
    map id | id in rows ::
      if rows[id].lifecycle in {Starting, Running, Stopping}
      then rows[id].(lifecycle := Interrupted, failureReason := None, processId := None, activeRunId := None,
                     updatedAtMs := nowMs)
      else rows[id]
  }

  /**
   * After opening nothing is busy or pending, settled rows are as they were, and opening again changes
   * nothing. What was pending is indeterminate under its own request; what was busy is interrupted,
   * with no process, no run and no failure, and keeps the time it was created.
   */
  lemma RecoveryLeavesNothingPending(ops: Operations, rows: AgentRows, nowMs: nat, laterMs: nat)
    ensures forall key :: key in Recover(ops) ==> !Recover(ops)[key].status.Pending?
    ensures forall key :: key in ops && !ops[key].status.Pending? ==> key in Recover(ops) && Recover(ops)[key] == ops[key]
    ensures Recover(ops).Keys == ops.Keys && Recover(Recover(ops)) == Recover(ops)
    ensures forall id :: id in RecoverAgents(rows, nowMs) ==>
              RecoverAgents(rows, nowMs)[id].lifecycle !in {Starting, Running, Stopping}
    ensures forall id :: id in rows && rows[id].lifecycle !in {Starting, Running, Stopping} ==>
              id in RecoverAgents(rows, nowMs) && RecoverAgents(rows, nowMs)[id] == rows[id]
    ensures RecoverAgents(RecoverAgents(rows, nowMs), laterMs) == RecoverAgents(rows, nowMs)
    ensures forall key :: key in ops && ops[key].status.Pending? ==>
              Recover(ops)[key] == OperationRecord(ops[key].request, Indeterminate, ops[key].createdAtMs)
    ensures RecoverAgents(rows, nowMs).Keys == rows.Keys
    ensures forall id :: id in rows && rows[id].lifecycle in {Starting, Running, Stopping} ==>
              RecoverAgents(rows, nowMs)[id] == AgentRow(Interrupted, None, None, None, rows[id].createdAtMs, nowMs)
  {
    var once := RecoverAgents(rows, nowMs);
    assert forall id :: id in once ==> RecoverAgents(once, laterMs)[id] == once[id];
  }

  // ----- pruning order -----

  /** `a` comes before `b` in `ORDER BY created_at_ms DESC, operation_id DESC`. */
  predicate Newer(ops: Operations, a: OperationKey, b: OperationKey)
    requires a in ops && b in ops
  {
    ops[a].createdAtMs > ops[b].createdAtMs
    || (ops[a].createdAtMs == ops[b].createdAtMs && TextBelow(b.operationId, a.operationId))
  }

  predicate SameDevice(keys: set<OperationKey>, deviceId: DeviceId) {
    forall k :: k in keys ==> k.deviceId == deviceId
  }

  /** The records of a device that survive the age cut. */
  function Recent(ops: Operations, deviceId: DeviceId, olderThanMs: nat): set<OperationKey> {
    set k | k in ops && k.deviceId == deviceId && ops[k].createdAtMs >= olderThanMs
  }

  /** The records listed before `key`; its row number is their count. */
  function Ahead(ops: Operations, keys: set<OperationKey>, key: OperationKey): set<OperationKey>
    requires key in ops && forall k :: k in keys ==> k in ops
  {
    set k | k in keys && Newer(ops, k, key)
  }

  /** What `LIMIT -1 OFFSET n` does not select: the rows numbered below n. */
  function NewestOf(ops: Operations, keys: set<OperationKey>, n: nat): set<OperationKey>
    requires forall k :: k in keys ==> k in ops
  {
    set k | k in keys && |Ahead(ops, keys, k)| < n
  }

  function Prune(ops: Operations, deviceId: DeviceId, olderThanMs: nat, maxCount: nat): Operations {
    var recent := Recent(ops, deviceId, olderThanMs);
    var kept := NewestOf(ops, recent, maxCount);
    map key | key in ops && (key.deviceId != deviceId || key in kept) :: ops[key]
  }

  // ----- the order picks out the newest records -----

  lemma NewerIsTotal(ops: Operations, a: OperationKey, b: OperationKey)
    requires a in ops && b in ops && a.deviceId == b.deviceId
    ensures a != b ==> (Newer(ops, a, b) <==> !Newer(ops, b, a))
    ensures !Newer(ops, a, a)
  {
    TextBelowIsTotal(a.operationId, b.operationId);
    TextBelowIsTotal(a.operationId, a.operationId);
  }

  lemma NewerIsTransitive(ops: Operations, a: OperationKey, b: OperationKey, c: OperationKey)
    requires a in ops && b in ops && c in ops && Newer(ops, a, b) && Newer(ops, b, c)
    ensures Newer(ops, a, c)
  {
    if TextBelow(b.operationId, a.operationId) && TextBelow(c.operationId, b.operationId) {
      TextBelowIsTransitive(c.operationId, b.operationId, a.operationId);
    }
  }

  predicate IsOldest(ops: Operations, keys: set<OperationKey>, key: OperationKey)
    requires forall k :: k in keys ==> k in ops
  {
    key in keys && forall k :: k in keys && k != key ==> Newer(ops, k, key)
  }

  lemma {:induction false} OldestExists(ops: Operations, keys: set<OperationKey>, deviceId: DeviceId)
    returns (oldest: OperationKey)
    requires keys != {} && SameDevice(keys, deviceId) && forall k :: k in keys ==> k in ops
    ensures IsOldest(ops, keys, oldest)
    decreases |keys|
  {
    hide Newer;
    oldest :| oldest in keys;
    var rest := keys - {oldest};
    assert keys == rest + {oldest};
    if rest != {} {
      var other := OldestExists(ops, rest, deviceId);
      NewerIsTotal(ops, oldest, other);
      if Newer(ops, oldest, other) {
        forall k | k in keys && k != other ensures Newer(ops, k, other) {
          assert k == oldest || k in rest;
        }
        oldest := other;
      } else {
        forall k | k in keys && k != oldest ensures Newer(ops, k, oldest) {
          assert k in rest;
          if k != other {
            NewerIsTransitive(ops, k, other, oldest);
          }
        }
      }
    }
  }

  /** The first n rows of the order are n records if there are that many, and all of them otherwise. */
  lemma {:induction false} NewestCount(ops: Operations, keys: set<OperationKey>, deviceId: DeviceId, n: nat)
    requires SameDevice(keys, deviceId) && forall k :: k in keys ==> k in ops
    ensures |NewestOf(ops, keys, n)| == if n < |keys| then n else |keys|
    decreases |keys|
  {
    if keys == {} {
      assert NewestOf(ops, keys, n) == {};
    } else {
      var oldest := OldestExists(ops, keys, deviceId);
      var rest := keys - {oldest};
      NewestCount(ops, rest, deviceId, n);
      NewerIsTotal(ops, oldest, oldest);
      assert Ahead(ops, keys, oldest) == rest;
      forall k | k in rest ensures Ahead(ops, keys, k) == Ahead(ops, rest, k) {
        NewerIsTotal(ops, k, oldest);
      }
      if n < |keys| {
        assert NewestOf(ops, keys, n) == NewestOf(ops, rest, n);
      } else {
        assert NewestOf(ops, keys, n) == NewestOf(ops, rest, n) + {oldest};
      }
    }
  }

  /**
   * Pruning leaves exactly the newest `maxCount` records of the device among those not older than
   * the cutoff, unchanged, and does not touch another device.
   */
  lemma PruneKeepsTheNewest(ops: Operations, deviceId: DeviceId, olderThanMs: nat, maxCount: nat)
    ensures var after := Prune(ops, deviceId, olderThanMs, maxCount);
            var recent := Recent(ops, deviceId, olderThanMs);
            var kept := set k | k in after && k.deviceId == deviceId;
            && (forall k :: k in after ==> k in ops && after[k] == ops[k])
            && (forall k :: k in ops && k.deviceId != deviceId ==> k in after)
            && kept <= recent
            && |kept| == (if maxCount < |recent| then maxCount else |recent|)
            && forall k, dropped :: k in kept && dropped in recent - kept ==> Newer(ops, k, dropped)
  {
    var after := Prune(ops, deviceId, olderThanMs, maxCount);
    var recent := Recent(ops, deviceId, olderThanMs);
    var kept := set k | k in after && k.deviceId == deviceId;
    assert kept == NewestOf(ops, recent, maxCount);
    NewestCount(ops, recent, deviceId, maxCount);
    forall k, dropped | k in kept && dropped in recent - kept ensures Newer(ops, k, dropped) {
      NewerIsTotal(ops, k, dropped);
      if !Newer(ops, k, dropped) {
        AheadIsMonotone(ops, recent, dropped, k);
      }
    }
  }

  lemma AheadIsMonotone(ops: Operations, keys: set<OperationKey>, a: OperationKey, b: OperationKey)
    requires forall k :: k in keys ==> k in ops
    requires a in keys && b in keys && Newer(ops, a, b)
    ensures |Ahead(ops, keys, a)| <= |Ahead(ops, keys, b)|
  {
    forall k | k in Ahead(ops, keys, a) ensures k in Ahead(ops, keys, b) {
      NewerIsTransitive(ops, k, a, b);
    }
    SubsetIsSmaller(Ahead(ops, keys, a), Ahead(ops, keys, b));
  }

  lemma {:induction false} SubsetIsSmaller<T>(a: set<T>, b: set<T>)
    requires a <= b
    ensures |a| <= |b|
  {
    assert b == a + (b - a);
  }

  // ----- the store -----

  class Store {
    var operations: Operations
    var agents: AgentRows

    constructor (operations: Operations, agents: AgentRows)
      ensures this.operations == operations && this.agents == agents
    {
      this.operations, this.agents := operations, agents;
    }

    /** Opening recovers what an earlier daemon left behind, unless the clock does not fit a column. */
    static method Open(saved: Operations, savedAgents: AgentRows, nowMs: nat) returns (outcome: Result<Store, OperationError>)
      ensures outcome.Ok? <==> nowMs <= SQL_MAX
      ensures outcome.Ok? ==>
                && fresh(outcome.value) && outcome.value.operations == Recover(saved)
                && outcome.value.agents == RecoverAgents(savedAgents, nowMs)
    {
      if nowMs > SQL_MAX {
        return Err(StorageFailed);
      }
      var store := new Store(Recover(saved), RecoverAgents(savedAgents, nowMs));
      return Ok(store);
    }

    method ClaimOperation(key: OperationKey, request: ControlRequest, nowMs: nat)
      returns (claim: Result<OperationClaim, OperationError>)
      modifies this`operations
      ensures (operations, claim) == Claim(old(operations), key, request, nowMs)
    {
      if nowMs > SQL_MAX {
        return Err(StorageFailed);
      }
      if key !in operations {
        operations := operations[key := OperationRecord(request, Pending, nowMs)];
        return Ok(Execute);
      }
      var stored := operations[key];
      if stored.request != request {
        return Err(ConflictingRequest);
      }
      match stored.status {
        case Pending => return Ok(InProgress);
        case Indeterminate => return Ok(Unknown);
        case Completed(outcome) => return Ok(Replayed(outcome));
      }
    }

    method CompleteOperation(key: OperationKey, outcome: ResponseOutcome, nowMs: nat)
      returns (result: Result<(), OperationError>)
      modifies this`operations
      ensures (operations, result) == Complete(old(operations), key, outcome, nowMs)
      ensures result.Ok? <==> nowMs <= SQL_MAX && key in old(operations) && old(operations)[key].status.Pending?
      ensures result.Ok? ==> operations == old(operations)[key := old(operations)[key].(status := Completed(outcome))]
      ensures result.Err? ==> operations == old(operations)
    {
      if nowMs > SQL_MAX {
        return Err(StorageFailed);
      }
      if key in operations && operations[key].status.Pending? {
        operations := operations[key := operations[key].(status := Completed(outcome))];
        return Ok(());
      }
      return Err(NotPending);
    }

    /** Two deletes: the records before the cutoff, then the rows past the newest `maxCount`. */
    method PruneOperations(deviceId: DeviceId, olderThanMs: nat, maxCount: nat)
      returns (deleted: Result<nat, OperationError>)
      modifies this`operations
      ensures deleted.Ok? <==> olderThanMs <= SQL_MAX && maxCount <= SQL_MAX
      ensures operations == PruneCall(old(operations), deviceId, olderThanMs, maxCount)
      ensures deleted.Ok? ==> deleted.value + |operations| == |old(operations)|
    {
      if olderThanMs > SQL_MAX {
        return Err(StorageFailed);
      }
      ghost var before := operations;
      var stale := set k | k in operations && k.deviceId == deviceId && operations[k].createdAtMs < olderThanMs;
      operations := operations - stale;
      assert operations == AgedOut(before, deviceId, olderThanMs);
      RemovalCount(before, stale);
      if maxCount > SQL_MAX {
        return Err(StorageFailed);
      }
      var rows := set k | k in operations && k.deviceId == deviceId;
      var excess := rows - NewestOf(operations, rows, maxCount);
      RemovalCount(operations, excess);
      PruneInTwoSteps(before, deviceId, olderThanMs, maxCount);
      operations := operations - excess;
      return Ok(|stale| + |excess|);
    }
  }

  function AgedOut(ops: Operations, deviceId: DeviceId, olderThanMs: nat): Operations {
    map k | k in ops && (k.deviceId != deviceId || ops[k].createdAtMs >= olderThanMs) :: ops[k]
  }

  /** A cutoff or a count that does not fit a column stops the call before the delete it belongs to. */
  function PruneCall(ops: Operations, deviceId: DeviceId, olderThanMs: nat, maxCount: nat): Operations {
    if olderThanMs > SQL_MAX then ops
    else if maxCount > SQL_MAX then AgedOut(ops, deviceId, olderThanMs)
    else Prune(ops, deviceId, olderThanMs, maxCount)
  }

  lemma RemovalCount(ops: Operations, gone: set<OperationKey>)
    requires gone <= ops.Keys
    ensures |ops - gone| + |gone| == |ops|
  {
    assert (ops - gone).Keys == ops.Keys - gone;
    assert |ops.Keys - gone| + |gone| == |ops.Keys|;
  }

  /** Ranking the rows left by the first delete is ranking the recent records of the original table. */
  lemma PruneInTwoSteps(ops: Operations, deviceId: DeviceId, olderThanMs: nat, maxCount: nat)
    ensures var aged := AgedOut(ops, deviceId, olderThanMs);
            var rows := set k | k in aged && k.deviceId == deviceId;
            aged - (rows - NewestOf(aged, rows, maxCount)) == Prune(ops, deviceId, olderThanMs, maxCount)
  {
    var aged := AgedOut(ops, deviceId, olderThanMs);
    var rows := set k | k in aged && k.deviceId == deviceId;
    assert rows == Recent(ops, deviceId, olderThanMs);
    forall k | k in rows ensures Ahead(aged, rows, k) == Ahead(ops, rows, k) {
    }
    assert NewestOf(aged, rows, maxCount) == NewestOf(ops, rows, maxCount);
  }

  // ----- runs -----

  datatype StoreEvent =
    | ClaimEvent(key: OperationKey, request: ControlRequest, nowMs: nat)
    | CompleteEvent(key: OperationKey, outcome: ResponseOutcome, nowMs: nat)
    | RestartEvent
    | PruneEvent(deviceId: DeviceId, olderThanMs: nat, maxCount: nat)

  function StoreStep(ops: Operations, e: StoreEvent): Operations {
    match e
    case ClaimEvent(key, request, nowMs) => Claim(ops, key, request, nowMs).0
    case CompleteEvent(key, outcome, nowMs) => Complete(ops, key, outcome, nowMs).0
    case RestartEvent => Recover(ops)
    case PruneEvent(deviceId, olderThanMs, maxCount) => PruneCall(ops, deviceId, olderThanMs, maxCount)
  }

  function StoreRun(ops: Operations, events: seq<StoreEvent>): Operations {
    if events == [] then ops else StoreStep(StoreRun(ops, events[..|events| - 1]), events[|events| - 1])
  }

  /** The i-th event of the run is a claim of this key that tells its caller to execute. */
  predicate ExecutesAt(ops: Operations, events: seq<StoreEvent>, i: nat, key: OperationKey)
    requires i < |events|
  {
    && events[i].ClaimEvent? && events[i].key == key
    && Claim(StoreRun(ops, events[..i]), key, events[i].request, events[i].nowMs).1 == Ok(Execute)
  }

  /** The i-th event is a prune that deletes this key's record. */
  predicate PrunedAt(ops: Operations, events: seq<StoreEvent>, i: nat, key: OperationKey)
    requires i < |events|
  {
    && events[i].PruneEvent?
    && key in StoreRun(ops, events[..i])
    && key !in StoreStep(StoreRun(ops, events[..i]), events[i])
  }

  /** The run between i and j never deletes the key. */
  predicate UnprunedBetween(ops: Operations, events: seq<StoreEvent>, i: nat, j: nat, key: OperationKey)
    requires j <= |events|
  {
    forall k :: i <= k < j ==> !PrunedAt(ops, events, k, key)
  }

  lemma StepKeepsRecord(ops: Operations, e: StoreEvent, key: OperationKey)
    requires key in ops
    ensures var after := StoreStep(ops, e);
            && (key !in after ==> e.PruneEvent?)
            && (key in after ==>
                  && after[key].request == ops[key].request && after[key].createdAtMs == ops[key].createdAtMs
                  && (!ops[key].status.Pending? ==> after[key] == ops[key])
                  && (after[key].status != ops[key].status && after[key].status.Completed? ==> e.CompleteEvent?))
    ensures !e.PruneEvent? ==> key in StoreStep(ops, e)
    ensures e == RestartEvent ==> !StoreStep(ops, e)[key].status.Pending?
  {
  }

  /** A record that settled, completed or indeterminate, reads back the same until a prune deletes it. */
  lemma {:induction false} SettledUntilPruned(
    ops: Operations, events: seq<StoreEvent>, i: nat, j: nat, key: OperationKey)
    requires i <= j <= |events| && key in StoreRun(ops, events[..i])
    requires UnprunedBetween(ops, events, i, j, key)
    ensures key in StoreRun(ops, events[..j])
    ensures StoreRun(ops, events[..j])[key].request == StoreRun(ops, events[..i])[key].request
    ensures !StoreRun(ops, events[..i])[key].status.Pending? ==>
              StoreRun(ops, events[..j])[key] == StoreRun(ops, events[..i])[key]
    decreases j - i
  {
    if i < j {
      hide StoreStep, Claim;
      assert UnprunedBetween(ops, events, i, j - 1, key);
      SettledUntilPruned(ops, events, i, j - 1, key);
      assert events[..j][..j - 1] == events[..j - 1];
      assert !PrunedAt(ops, events, j - 1, key);
      StepKeepsRecord(StoreRun(ops, events[..j - 1]), events[j - 1], key);
    }
  }

  /** A key is handed out for execution a second time only if a prune deleted its record in between. */
  lemma ExecutedTwiceOnlyAfterPrune(
    ops: Operations, events: seq<StoreEvent>, i: nat, j: nat, key: OperationKey)
    requires i < j < |events|
    requires ExecutesAt(ops, events, i, key) && ExecutesAt(ops, events, j, key)
    ensures exists k :: i < k < j && PrunedAt(ops, events, k, key)
  {
    assert events[..i + 1][..i] == events[..i];
    assert key in StoreRun(ops, events[..i + 1]);
    if forall k :: i < k < j ==> !PrunedAt(ops, events, k, key) {
      assert UnprunedBetween(ops, events, i + 1, j, key);
      SettledUntilPruned(ops, events, i + 1, j, key);
      assert false;
    }
  }

  /**
   * A record still pending at a restart answers "indeterminate" to every retry of the same request,
   * and a completed one replays its outcome, until a prune deletes it.
   */
  lemma RetriesAfterRestart(
    ops: Operations, events: seq<StoreEvent>, i: nat, j: nat, key: OperationKey, request: ControlRequest, nowMs: nat)
    requires i < j <= |events| && events[i] == RestartEvent
    requires key in StoreRun(ops, events[..i]) && UnprunedBetween(ops, events, i + 1, j, key)
    requires StoreRun(ops, events[..i])[key].request == request && nowMs <= SQL_MAX
    ensures Claim(StoreRun(ops, events[..j]), key, request, nowMs).1 ==
            match StoreRun(ops, events[..i])[key].status
            case Completed(outcome) => Ok(Replayed(outcome))
            case _ => Ok(Unknown)
  {
    assert events[..i + 1][..i] == events[..i];
    SettledUntilPruned(ops, events, i + 1, j, key);
  }
}
