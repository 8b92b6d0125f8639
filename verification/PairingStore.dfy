/** Pairing grants: created with an expiry, consumed once, exchanged for a device inside one transaction. */
module PairingStore {
  import opened Prelude
  import OperationStore

  type PairingId = string
  type DeviceId = OperationStore.DeviceId

  /** Secrets and tokens are stored as hashes; two secrets have the same hash exactly when they are equal. */
  type Secret = string

  datatype Scopes = Scopes(
    observe: bool, prompt: bool, mutateSession: bool, stopAgent: bool, answerUi: bool, administerDevices: bool)

  datatype Pairing = Pairing(
    requestedName: string, scopes: Scopes, secret: Secret,
    createdAtMs: nat, expiresAtMs: nat, consumedAtMs: Option<nat>)

  datatype Descriptor = Descriptor(name: string, platform: string)

  datatype Device = Device(
    name: string, platform: string, scopes: Scopes, token: Secret,
    createdAtMs: nat, lastSeenAtMs: Option<nat>, revokedAtMs: Option<nat>)

  datatype Tables = Tables(pairings: map<PairingId, Pairing>, devices: map<DeviceId, Device>)

  datatype PairingError = InvalidCredential | Consumed | Expired | StorageFailed

  datatype DeviceError = BadCredential | DeviceRevoked | DeviceStorageFailed

  datatype Credential = Credential(deviceId: DeviceId, token: Secret, scopes: Scopes)

  /** The statements of a transaction, in order. */
  datatype Statement = Begin | Load | MarkConsumed | InsertDevice | Commit

  /** What goes wrong: a statement fails (or the process dies before it), or the process dies right after the commit. */
  datatype Fault = NoFault | Before(statement: Statement) | AfterCommit

  const SQL_MAX := OperationStore.SQL_MAX

  // ----- what each call does to the committed tables -----

  function Create(t: Tables, id: PairingId, requestedName: string, scopes: Scopes, secret: Secret,
                  nowMs: u64, ttlMs: u64, fault: bool): (Tables, Result<nat, PairingError>)
  {
    var expiresAtMs := CheckedAdd(nowMs, ttlMs);
    if expiresAtMs.None? || expiresAtMs.value > SQL_MAX || fault || id in t.pairings then (t, Err(StorageFailed))
    else (t.(pairings := t.pairings[id := Pairing(requestedName, scopes, secret, nowMs, expiresAtMs.value, None)]),
          Ok(expiresAtMs.value))
  }

  /** Why a grant is refused, in the order the checks are made. */
  function Refusal(t: Tables, id: PairingId, secret: Secret, nowMs: nat): Option<PairingError> {
    if id !in t.pairings || t.pairings[id].secret != secret then Some(InvalidCredential)
    else if t.pairings[id].consumedAtMs.Some? then Some(Consumed)
    else if t.pairings[id].expiresAtMs <= nowMs then Some(Expired)
    else None
  }

  function Spend(t: Tables, id: PairingId, nowMs: nat): Tables
    requires id in t.pairings
  {
    t.(pairings := t.pairings[id := t.pairings[id].(consumedAtMs := Some(nowMs))])
  }

  function NewDevice(grant: Pairing, descriptor: Descriptor, token: Secret, nowMs: nat): Device {
    Device(if grant.requestedName == "" then descriptor.name else grant.requestedName, descriptor.platform,
           grant.scopes, token, nowMs, Some(nowMs), None)
  }

  /** The answer is `None` when the process died before it could give one. */
  function Consume(t: Tables, id: PairingId, secret: Secret, nowMs: nat, fault: Fault)
    : (Tables, Option<Result<Pairing, PairingError>>)
  {
    if fault.Before? && fault.statement in {Begin, Load} then (t, Some(Err(StorageFailed)))
    else if Refusal(t, id, secret, nowMs).Some? then (t, Some(Err(Refusal(t, id, secret, nowMs).value)))
    else if (fault.Before? && fault.statement in {MarkConsumed, Commit}) || nowMs > SQL_MAX then (t, Some(Err(StorageFailed)))
    else (Spend(t, id, nowMs),
          if fault == AfterCommit then None else Some(Ok(t.pairings[id].(consumedAtMs := Some(nowMs)))))
  }

  function Exchange(t: Tables, id: PairingId, secret: Secret, descriptor: Descriptor,
                    deviceId: DeviceId, token: Secret, nowMs: nat, fault: Fault)
    : (Tables, Option<Result<Credential, PairingError>>)
  {
    if fault.Before? && fault.statement in {Begin, Load} then (t, Some(Err(StorageFailed)))
    else if Refusal(t, id, secret, nowMs).Some? then (t, Some(Err(Refusal(t, id, secret, nowMs).value)))
    else if fault.Before? || nowMs > SQL_MAX || deviceId in t.devices then (t, Some(Err(StorageFailed)))
    else
      var grant := t.pairings[id];
      (Spend(t, id, nowMs).(devices := t.devices[deviceId := NewDevice(grant, descriptor, token, nowMs)]),
       if fault == AfterCommit then None else Some(Ok(Credential(deviceId, token, grant.scopes))))
  }

  /** Whether this call revoked the device; a device revoked before keeps its time. */
  function Revoke(t: Tables, deviceId: DeviceId, nowMs: nat): (Tables, Result<bool, DeviceError>) {
    if nowMs > SQL_MAX then (t, Err(DeviceStorageFailed))
    else if deviceId !in t.devices || t.devices[deviceId].revokedAtMs.Some? then (t, Ok(false))
    else (t.(devices := t.devices[deviceId := t.devices[deviceId].(revokedAtMs := Some(nowMs))]), Ok(true))
  }

  /** The token is checked before the revocation, so only its owner learns that a device was revoked. */
  function Authenticate(t: Tables, deviceId: DeviceId, token: Secret, nowMs: nat): (Tables, Result<Device, DeviceError>) {
    if deviceId !in t.devices || t.devices[deviceId].token != token then (t, Err(BadCredential))
    else if t.devices[deviceId].revokedAtMs.Some? then (t, Err(DeviceRevoked))
    else if nowMs > SQL_MAX then (t, Err(DeviceStorageFailed))
    else
      var seen := t.devices[deviceId].(lastSeenAtMs := Some(nowMs));
      (t.(devices := t.devices[deviceId := seen]), Ok(seen))
  }

  function Enrol(t: Tables, deviceId: DeviceId, device: Device): Tables {
    if deviceId in t.devices then t else t.(devices := t.devices[deviceId := device])
  }

  predicate FitsColumns(device: Device) {
    && device.createdAtMs <= SQL_MAX
    && (device.lastSeenAtMs.Some? ==> device.lastSeenAtMs.value <= SQL_MAX)
    && (device.revokedAtMs.Some? ==> device.revokedAtMs.value <= SQL_MAX)
  }

  // ----- the store -----

  /** An open transaction: its writes reach the store only when it commits. */
  class Transaction {
    var rows: Tables

    constructor (rows: Tables)
      ensures this.rows == rows
    {
      this.rows := rows;
    }

    method UpdateConsumed(id: PairingId, nowMs: nat) returns (changed: bool)
      modifies this
      ensures changed <==> id in old(rows).pairings && old(rows).pairings[id].consumedAtMs.None?
      ensures rows == if changed then Spend(old(rows), id, nowMs) else old(rows)
    {
      changed := id in rows.pairings && rows.pairings[id].consumedAtMs.None?;
      if changed {
        rows := rows.(pairings := rows.pairings[id := rows.pairings[id].(consumedAtMs := Some(nowMs))]);
      }
    }

    method InsertRow(deviceId: DeviceId, device: Device) returns (inserted: bool)
      modifies this
      ensures inserted <==> deviceId !in old(rows).devices
      ensures rows == Enrol(old(rows), deviceId, device)
    {
      inserted := deviceId !in rows.devices;
      if inserted {
        rows := rows.(devices := rows.devices[deviceId := device]);
      }
    }
  }

  class Store {
    var tables: Tables

    constructor (tables: Tables)
      ensures this.tables == tables
    {
      this.tables := tables;
    }

    method CreatePairing(id: PairingId, requestedName: string, scopes: Scopes, secret: Secret,
                         nowMs: u64, ttlMs: u64, fault: bool)
      returns (grant: Result<nat, PairingError>)
      modifies this
      ensures (tables, grant) == Create(old(tables), id, requestedName, scopes, secret, nowMs, ttlMs, fault)
    {
      var expiresAtMs := CheckedAdd(nowMs, ttlMs);
      if expiresAtMs.None? {
        return Err(StorageFailed);
      }
      if nowMs > SQL_MAX || expiresAtMs.value > SQL_MAX {
        return Err(StorageFailed);
      }
      if fault || id in tables.pairings {
        return Err(StorageFailed);
      }
      tables := tables.(pairings :=
        tables.pairings[id := Pairing(requestedName, scopes, secret, nowMs, expiresAtMs.value, None)]);
      return Ok(expiresAtMs.value);
    }

    method ConsumePairing(id: PairingId, secret: Secret, nowMs: nat, fault: Fault)
      returns (answer: Option<Result<Pairing, PairingError>>)
      modifies this
      ensures (tables, answer) == Consume(old(tables), id, secret, nowMs, fault)
    {
      if fault == Before(Begin) || fault == Before(Load) {
        return Some(Err(StorageFailed));
      }
      var transaction := new Transaction(tables);
      if id !in transaction.rows.pairings {
        return Some(Err(InvalidCredential));
      }
      var raw := transaction.rows.pairings[id];
      if raw.secret != secret {
        return Some(Err(InvalidCredential));
      }
      if raw.consumedAtMs.Some? {
        return Some(Err(Consumed));
      }
      if raw.expiresAtMs <= nowMs {
        return Some(Err(Expired));
      }
      if nowMs > SQL_MAX || fault == Before(MarkConsumed) {
        return Some(Err(StorageFailed));
      }
      var changed := transaction.UpdateConsumed(id, nowMs);
      if !changed {
        return Some(Err(Consumed));
      }
      if fault == Before(Commit) {
        return Some(Err(StorageFailed));
      }
      tables := transaction.rows;
      return if fault == AfterCommit then None else Some(Ok(raw.(consumedAtMs := Some(nowMs))));
    }

    /** Consume the grant and insert the device in one transaction; leaving early drops both writes. */
    method ExchangePairing(id: PairingId, secret: Secret, descriptor: Descriptor,
                           deviceId: DeviceId, token: Secret, nowMs: nat, fault: Fault)
      returns (answer: Option<Result<Credential, PairingError>>)
      modifies this
      ensures (tables, answer) == Exchange(old(tables), id, secret, descriptor, deviceId, token, nowMs, fault)
    {
      if fault == Before(Begin) || fault == Before(Load) {
        return Some(Err(StorageFailed));
      }
      var transaction := new Transaction(tables);
      if id !in transaction.rows.pairings {
        return Some(Err(InvalidCredential));
      }
      var raw := transaction.rows.pairings[id];
      if raw.secret != secret {
        return Some(Err(InvalidCredential));
      }
      if raw.consumedAtMs.Some? {
        return Some(Err(Consumed));
      }
      if raw.expiresAtMs <= nowMs {
        return Some(Err(Expired));
      }
      if nowMs > SQL_MAX || fault == Before(MarkConsumed) {
        return Some(Err(StorageFailed));
      }
      var changed := transaction.UpdateConsumed(id, nowMs);
      if !changed {
        return Some(Err(Consumed));
      }
      if fault == Before(InsertDevice) {
        return Some(Err(StorageFailed));
      }
      var name := if raw.requestedName == "" then descriptor.name else raw.requestedName;
      var inserted := transaction.InsertRow(
        deviceId, Device(name, descriptor.platform, raw.scopes, token, nowMs, Some(nowMs), None));
      if !inserted || fault == Before(Commit) {
        return Some(Err(StorageFailed));
      }
      assert fault.Before? ==>
          fault.statement in {Begin, Load, MarkConsumed, Commit} || fault.statement == InsertDevice;
      tables := transaction.rows;
      return if fault == AfterCommit then None else Some(Ok(Credential(deviceId, token, raw.scopes)));
    }

    method RevokeDevice(deviceId: DeviceId, nowMs: nat) returns (revoked: Result<bool, DeviceError>)
      modifies this
      ensures (tables, revoked) == Revoke(old(tables), deviceId, nowMs)
      ensures revoked.Ok? && deviceId in tables.devices ==> tables.devices[deviceId].revokedAtMs.Some?
    {
      if nowMs > SQL_MAX {
        return Err(DeviceStorageFailed);
      }
      if deviceId !in tables.devices || tables.devices[deviceId].revokedAtMs.Some? {
        return Ok(false);
      }
      tables := tables.(devices := tables.devices[deviceId := tables.devices[deviceId].(revokedAtMs := Some(nowMs))]);
      return Ok(true);
    }

    method AuthenticateDevice(deviceId: DeviceId, token: Secret, nowMs: nat) returns (device: Result<Device, DeviceError>)
      modifies this
      ensures (tables, device) == Authenticate(old(tables), deviceId, token, nowMs)
      ensures device.Ok? ==>
                && deviceId in old(tables).devices && old(tables).devices[deviceId].token == token
                && old(tables).devices[deviceId].revokedAtMs == None
    {
      if deviceId !in tables.devices {
        return Err(BadCredential);
      }
      if tables.devices[deviceId].token != token {
        return Err(BadCredential);
      }
      if tables.devices[deviceId].revokedAtMs.Some? {
        return Err(DeviceRevoked);
      }
      if nowMs > SQL_MAX {
        return Err(DeviceStorageFailed);
      }
      tables := tables.(devices := tables.devices[deviceId := tables.devices[deviceId].(lastSeenAtMs := Some(nowMs))]);
      return Ok(tables.devices[deviceId]);
    }
  }

  // ----- one call -----

  /** An exchange that reports an error left both tables as they were, whatever statement failed. */
  lemma AbortedExchangeChangesNothing(t: Tables, id: PairingId, secret: Secret, descriptor: Descriptor,
                                      deviceId: DeviceId, token: Secret, nowMs: nat, fault: Fault)
    ensures var (after, answer) := Exchange(t, id, secret, descriptor, deviceId, token, nowMs, fault);
            && (answer.Some? && answer.value.Err? ==> after == t)
            && (after == t ==> answer.Some? && answer.value.Err?)
  {
    if Refusal(t, id, secret, nowMs).None? && deviceId !in t.devices {
      assert deviceId in Exchange(t, id, secret, descriptor, deviceId, token, nowMs, NoFault).0.devices ||
             nowMs > SQL_MAX;
    }
  }

  /** Exactly when an exchange commits: right secret, not consumed, before the expiry, fresh device, no fault. */
  lemma ExchangeCommitsIff(t: Tables, id: PairingId, secret: Secret, descriptor: Descriptor,
                           deviceId: DeviceId, token: Secret, nowMs: nat, fault: Fault)
    requires id in t.pairings ==> t.pairings[id].expiresAtMs <= SQL_MAX
    ensures var (after, answer) := Exchange(t, id, secret, descriptor, deviceId, token, nowMs, fault);
            after != t <==>
              && id in t.pairings && t.pairings[id].secret == secret
              && t.pairings[id].consumedAtMs == None && nowMs < t.pairings[id].expiresAtMs
              && deviceId !in t.devices && !fault.Before?
  {
    AbortedExchangeChangesNothing(t, id, secret, descriptor, deviceId, token, nowMs, fault);
  }

  // ----- runs -----

  datatype StoreEvent =
    | CreateGrant(pairingId: PairingId, requestedName: string, scopes: Scopes, secret: Secret,
                  createMs: u64, ttlMs: u64, failed: bool)
    | ConsumeGrant(pairingId: PairingId, secret: Secret, nowMs: nat, fault: Fault)
    | ExchangeGrant(pairingId: PairingId, secret: Secret, descriptor: Descriptor,
                    deviceId: DeviceId, token: Secret, nowMs: nat, fault: Fault)
    | EnrolDevice(deviceId: DeviceId, device: Device)
    | RevokeDevice(deviceId: DeviceId, nowMs: nat)
    | AuthenticateDevice(deviceId: DeviceId, token: Secret, nowMs: nat)

  function TablesAfter(t: Tables, e: StoreEvent): Tables {
    match e
    case CreateGrant(id, name, scopes, secret, createMs, ttlMs, failed) =>
      Create(t, id, name, scopes, secret, createMs, ttlMs, failed).0
    case ConsumeGrant(id, secret, nowMs, fault) => Consume(t, id, secret, nowMs, fault).0
    case ExchangeGrant(id, secret, descriptor, deviceId, token, nowMs, fault) =>
      Exchange(t, id, secret, descriptor, deviceId, token, nowMs, fault).0
    case EnrolDevice(deviceId, device) => if FitsColumns(device) then Enrol(t, deviceId, device) else t
    case RevokeDevice(deviceId, nowMs) => Revoke(t, deviceId, nowMs).0
    case AuthenticateDevice(deviceId, token, nowMs) => Authenticate(t, deviceId, token, nowMs).0
  }

  /** A device row that appeared during an exchange of a grant, and when. */
  datatype Issue = Issue(pairingId: PairingId, atMs: nat)

  datatype Use = Plain | Exchanged

  /**
   * `issued` records the device rows seen to appear during exchanges, `used` the grants seen to
   * become consumed; both only compare the tables before and after.
   */
  datatype Books = Books(tables: Tables, issued: map<DeviceId, Issue>, used: map<PairingId, Use>)

  predicate IsSpent(t: Tables, id: PairingId) {
    id in t.pairings && t.pairings[id].consumedAtMs.Some?
  }

  /** An exchange after which its device exists and before which it did not. */
  predicate Issues(b: Books, e: StoreEvent) {
    e.ExchangeGrant? && e.deviceId in TablesAfter(b.tables, e).devices && e.deviceId !in b.tables.devices
  }

  function StoreStep(b: Books, e: StoreEvent): Books {
    var after := TablesAfter(b.tables, e);
    Books(after,
          if Issues(b, e) then b.issued[e.deviceId := Issue(e.pairingId, e.nowMs)] else b.issued,
          if (e.ExchangeGrant? || e.ConsumeGrant?) && IsSpent(after, e.pairingId) && !IsSpent(b.tables, e.pairingId)
          then b.used[e.pairingId := if e.ExchangeGrant? then Exchanged else Plain] else b.used)
  }

  const NEW_STORE := Books(Tables(map[], map[]), map[], map[])

  function StoreRun(events: seq<StoreEvent>): Books {
    if events == [] then NEW_STORE else StoreStep(StoreRun(events[..|events| - 1]), events[|events| - 1])
  }

  /** The device carries the scopes of the grant it came from, at a time before the grant's expiry. */
  predicate IssuedWell(b: Books, deviceId: DeviceId)
    requires deviceId in b.issued
  {
    var issue := b.issued[deviceId];
    && issue.pairingId in b.tables.pairings && deviceId in b.tables.devices
    && b.tables.devices[deviceId].scopes == b.tables.pairings[issue.pairingId].scopes
    && b.tables.pairings[issue.pairingId].consumedAtMs == Some(issue.atMs)
    && issue.atMs < b.tables.pairings[issue.pairingId].expiresAtMs
    && issue.pairingId in b.used && b.used[issue.pairingId] == Exchanged
  }

  predicate IssuedFor(b: Books, id: PairingId, deviceId: DeviceId) {
    deviceId in b.issued && b.issued[deviceId].pairingId == id
  }

  ghost predicate UsedWell(b: Books, id: PairingId)
    requires id in b.used
  {
    IsSpent(b.tables, id) && (b.used[id] == Exchanged <==> exists d :: IssuedFor(b, id, d))
  }

  predicate DistinctGrants(issued: map<DeviceId, Issue>) {
    forall d, e :: d in issued && e in issued && d != e ==> issued[d].pairingId != issued[e].pairingId
  }

  ghost predicate StoreInv(b: Books) {
    && (forall d :: d in b.issued ==> IssuedWell(b, d))
    && DistinctGrants(b.issued)
    && (forall id :: id in b.used ==> UsedWell(b, id))
    && (forall id :: id in b.tables.pairings ==> (IsSpent(b.tables, id) <==> id in b.used))
    && (forall id :: id in b.tables.pairings ==> b.tables.pairings[id].expiresAtMs <= SQL_MAX)
  }

  // ----- what every run keeps -----

  /** Rows are only added; a grant keeps its terms and its use, a device keeps its scopes. */
  predicate RowsKept(t: Tables, after: Tables) {
    && (forall id :: id in t.pairings ==> id in after.pairings && TermsKept(t.pairings[id], after.pairings[id]))
    && (forall d :: d in t.devices ==> d in after.devices && after.devices[d].scopes == t.devices[d].scopes)
  }

  predicate TermsKept(grant: Pairing, after: Pairing) {
    && after.(consumedAtMs := grant.consumedAtMs) == grant
    && (grant.consumedAtMs.Some? ==> after == grant)
  }

  lemma StepKeepsRows(t: Tables, e: StoreEvent)
    ensures RowsKept(t, TablesAfter(t, e))
    ensures forall id :: id in TablesAfter(t, e).pairings && id !in t.pairings ==>
              e.CreateGrant? && !IsSpent(TablesAfter(t, e), id) && TablesAfter(t, e).pairings[id].expiresAtMs <= SQL_MAX
  {
  }

  /** A grant is spent only by a consume or an exchange that names it, and only by an exchange with a new device. */
  lemma SpendingNamesTheGrant(t: Tables, e: StoreEvent, id: PairingId)
    requires !IsSpent(t, id) && IsSpent(TablesAfter(t, e), id)
    ensures e.ConsumeGrant? || e.ExchangeGrant?
    ensures e.pairingId == id && id in t.pairings
    ensures e.ExchangeGrant? ==> e.deviceId !in t.devices && e.deviceId in TablesAfter(t, e).devices
  {
  }

  /** A device appears in an exchange only together with the use of an open grant, with the grant's scopes. */
  lemma IssuingSpendsTheGrant(t: Tables, e: StoreEvent)
    requires e.ExchangeGrant? && e.deviceId !in t.devices && e.deviceId in TablesAfter(t, e).devices
    ensures var after := TablesAfter(t, e);
            && e.pairingId in t.pairings && !IsSpent(t, e.pairingId) && IsSpent(after, e.pairingId)
            && after.pairings[e.pairingId].consumedAtMs == Some(e.nowMs)
            && e.nowMs < after.pairings[e.pairingId].expiresAtMs
            && after.devices[e.deviceId].scopes == after.pairings[e.pairingId].scopes
  {
  }

  lemma StoreStepKeepsInv(b: Books, e: StoreEvent)
    requires StoreInv(b)
    ensures StoreInv(StoreStep(b, e))
  {
    hide TablesAfter, UsedWell, IssuedWell, DistinctGrants, IsSpent;
    var after := StoreStep(b, e);
    forall id | id in after.tables.pairings
      ensures IsSpent(after.tables, id) <==> id in after.used
      ensures after.tables.pairings[id].expiresAtMs <= SQL_MAX
    {
      SpentIffUsed(b, e, id);
    }
    forall d | d in after.issued ensures IssuedWell(after, d) {
      IssueKept(b, e, d);
    }
    IssuesStayDistinct(b, e);
    forall id | id in after.used ensures UsedWell(after, id) {
      UseKept(b, e, id);
    }
  }

  lemma IssueKept(b: Books, e: StoreEvent, d: DeviceId)
    requires StoreInv(b) && d in StoreStep(b, e).issued
    ensures IssuedWell(StoreStep(b, e), d)
  {
    hide TablesAfter, UsedWell, DistinctGrants;
    StepKeepsRows(b.tables, e);
    if Issues(b, e) && d == e.deviceId {
      IssuingSpendsTheGrant(b.tables, e);
    } else {
      assert IssuedWell(b, d);
      assert IsSpent(b.tables, b.issued[d].pairingId);
    }
  }

  lemma IssuesStayDistinct(b: Books, e: StoreEvent)
    requires StoreInv(b)
    ensures DistinctGrants(StoreStep(b, e).issued)
  {
    hide TablesAfter, UsedWell;
    if Issues(b, e) {
      IssuingSpendsTheGrant(b.tables, e);
      forall d | d in b.issued ensures b.issued[d].pairingId != e.pairingId {
        assert IssuedWell(b, d);
      }
    }
  }

  lemma SpentIffUsed(b: Books, e: StoreEvent, id: PairingId)
    requires StoreInv(b) && id in StoreStep(b, e).tables.pairings
    ensures IsSpent(StoreStep(b, e).tables, id) <==> id in StoreStep(b, e).used
    ensures StoreStep(b, e).tables.pairings[id].expiresAtMs <= SQL_MAX
  {
    hide TablesAfter;
    StepKeepsRows(b.tables, e);
    if id in b.used {
      assert UsedWell(b, id);
    }
    if !IsSpent(b.tables, id) && IsSpent(TablesAfter(b.tables, e), id) {
      SpendingNamesTheGrant(b.tables, e, id);
    }
  }

  lemma UseKept(b: Books, e: StoreEvent, id: PairingId)
    requires StoreInv(b) && id in StoreStep(b, e).used
    ensures UsedWell(StoreStep(b, e), id)
  {
    if IsSpent(b.tables, id) {
      OldUseKept(b, e, id);
    } else {
      NewUseKept(b, e, id);
    }
  }

  /** A grant spent in this step: by an exchange with its device, or by a plain consume with none. */
  lemma NewUseKept(b: Books, e: StoreEvent, id: PairingId)
    requires StoreInv(b) && id in StoreStep(b, e).used && !IsSpent(b.tables, id)
    ensures UsedWell(StoreStep(b, e), id)
  {
    hide TablesAfter, DistinctGrants, IssuedWell;
    NotYetIssued(b, id);
    SpendingNamesTheGrant(b.tables, e, id);
    if e.ExchangeGrant? {
      assert IssuedFor(StoreStep(b, e), id, e.deviceId);
    } else {
      assert forall d :: IssuedFor(StoreStep(b, e), id, d) ==> IssuedFor(b, id, d);
    }
  }

  lemma NotYetIssued(b: Books, id: PairingId)
    requires StoreInv(b) && !IsSpent(b.tables, id)
    ensures id !in b.used && forall d :: !IssuedFor(b, id, d)
  {
    hide DistinctGrants;
    assert id in b.used ==> UsedWell(b, id);
    forall d ensures !IssuedFor(b, id, d) {
      assert d in b.issued ==> IssuedWell(b, d);
    }
  }

  /** A grant already spent keeps its device, and gets no other. */
  lemma OldUseKept(b: Books, e: StoreEvent, id: PairingId)
    requires StoreInv(b) && id in StoreStep(b, e).used && IsSpent(b.tables, id)
    ensures UsedWell(StoreStep(b, e), id)
  {
    hide TablesAfter, DistinctGrants, IssuedWell;
    StaysSpent(b, e, id);
    assert UsedWell(b, id);
    forall d ensures IssuedFor(StoreStep(b, e), id, d) <==> IssuedFor(b, id, d) {
      SameIssue(b, e, id, d);
    }
  }

  lemma StaysSpent(b: Books, e: StoreEvent, id: PairingId)
    requires StoreInv(b) && IsSpent(b.tables, id)
    ensures IsSpent(StoreStep(b, e).tables, id)
    ensures id in b.used && id in StoreStep(b, e).used && StoreStep(b, e).used[id] == b.used[id]
  {
    hide TablesAfter, DistinctGrants, IssuedWell, UsedWell;
    StepKeepsRows(b.tables, e);
  }

  lemma SameIssue(b: Books, e: StoreEvent, id: PairingId, d: DeviceId)
    requires StoreInv(b) && IsSpent(b.tables, id)
    ensures IssuedFor(StoreStep(b, e), id, d) <==> IssuedFor(b, id, d)
  {
    hide TablesAfter, DistinctGrants, UsedWell, IsSpent;
    if Issues(b, e) {
      IssuingSpendsTheGrant(b.tables, e);
      assert e.deviceId in b.issued ==> IssuedWell(b, e.deviceId);
    }
  }

  lemma {:induction false} StoreInvAlways(events: seq<StoreEvent>)
    ensures StoreInv(StoreRun(events))
  {
    if events == [] {
    } else {
      hide StoreStep, StoreInv;
      StoreInvAlways(events[..|events| - 1]);
      StoreStepKeepsInv(StoreRun(events[..|events| - 1]), events[|events| - 1]);
    }
  }

  /**
   * Conservation of grants, over any run with any faults: a grant never issues two devices; the
   * grants consumed by an exchange are exactly those with a device, which carries the grant's
   * scopes and was issued before the expiry; an open grant has none.
   */
  lemma GrantsAreConserved(events: seq<StoreEvent>, id: PairingId)
    requires id in StoreRun(events).tables.pairings
    ensures var b := StoreRun(events);
            && (IsSpent(b.tables, id) <==> id in b.used)
            && (forall d, f :: IssuedFor(b, id, d) && IssuedFor(b, id, f) ==> d == f)
            && ((exists d :: IssuedFor(b, id, d)) <==> id in b.used && b.used[id] == Exchanged)
            && forall d :: IssuedFor(b, id, d) ==>
                 && d in b.tables.devices && b.tables.devices[d].scopes == b.tables.pairings[id].scopes
                 && b.issued[d].atMs < b.tables.pairings[id].expiresAtMs
                 && b.tables.pairings[id].consumedAtMs == Some(b.issued[d].atMs)
  {
    StoreInvAlways(events);
    var b := StoreRun(events);
    if id in b.used {
      assert UsedWell(b, id);
    }
    forall d | IssuedFor(b, id, d)
      ensures id in b.used && b.used[id] == Exchanged && d in b.tables.devices
      ensures b.tables.devices[d].scopes == b.tables.pairings[id].scopes
      ensures b.issued[d].atMs < b.tables.pairings[id].expiresAtMs
      ensures b.tables.pairings[id].consumedAtMs == Some(b.issued[d].atMs)
    {
      assert IssuedWell(b, d);
    }
  }

  /** Once a grant is consumed, with or without an answer reaching anyone, every later attempt is refused. */
  lemma {:induction false} SpentGrantStaysSpent(
    events: seq<StoreEvent>, i: nat, j: nat, id: PairingId, secret: Secret, descriptor: Descriptor,
    deviceId: DeviceId, token: Secret, nowMs: nat)
    requires i <= j <= |events| && IsSpent(StoreRun(events[..i]).tables, id)
    ensures StoreRun(events[..j]).tables.pairings.Keys >= {id}
    ensures StoreRun(events[..j]).tables.pairings[id] == StoreRun(events[..i]).tables.pairings[id]
    ensures var t := StoreRun(events[..j]).tables;
            var refusal := if t.pairings[id].secret == secret then Consumed else InvalidCredential;
            && Exchange(t, id, secret, descriptor, deviceId, token, nowMs, NoFault) == (t, Some(Err(refusal)))
            && Consume(t, id, secret, nowMs, NoFault) == (t, Some(Err(refusal)))
    decreases j
  {
    if i < j {
      assert events[..j][..j - 1] == events[..j - 1];
      SpentGrantStaysSpent(events, i, j - 1, id, secret, descriptor, deviceId, token, nowMs);
      StepKeepsRows(StoreRun(events[..j - 1]).tables, events[j - 1]);
    }
  }
}
