/** Grants and devices over whole runs: when a grant can be used, and what the credential it buys opens. */
module PairedDevices {
  import opened Prelude
  import opened PairingStore

  function TablesOf(events: seq<StoreEvent>): Tables {
    StoreRun(events).tables
  }

  // ----- the life of a grant -----

  /** The event creates a grant under this identifier whose times fit, and nothing fails. */
  predicate CreatesGrant(e: StoreEvent, id: PairingId) {
    e.CreateGrant? && e.pairingId == id && !e.failed && e.createMs + e.ttlMs <= SQL_MAX
  }

  /** The i-th event is the first that creates the grant. */
  predicate CreatedAt(events: seq<StoreEvent>, i: nat, id: PairingId) {
    && i < |events| && CreatesGrant(events[i], id)
    && forall j :: 0 <= j < i ==> !CreatesGrant(events[j], id)
  }

  predicate Refused<T>(answer: Option<Result<T, PairingError>>) {
    answer.Some? && answer.value.Err?
  }

  /** A consume or an exchange of the grant that was not answered with an error. */
  predicate Uses(t: Tables, e: StoreEvent, id: PairingId) {
    || (e.ConsumeGrant? && e.pairingId == id && !Refused(Consume(t, id, e.secret, e.nowMs, e.fault).1))
    || (e.ExchangeGrant? && e.pairingId == id
        && !Refused(Exchange(t, id, e.secret, e.descriptor, e.deviceId, e.token, e.nowMs, e.fault).1))
  }

  predicate UsedAt(events: seq<StoreEvent>, k: nat, id: PairingId)
    requires k < |events|
  {
    Uses(TablesOf(events[..k]), events[k], id)
  }

  /** What a grant says, whether or not it was used. */
  function Terms(e: StoreEvent): Pairing
    requires e.CreateGrant?
  {
    Pairing(e.requestedName, e.scopes, e.secret, e.createMs, e.createMs + e.ttlMs, None)
  }

  lemma GrantAppears(t: Tables, e: StoreEvent, id: PairingId)
    requires id !in t.pairings
    ensures id in TablesAfter(t, e).pairings <==> CreatesGrant(e, id)
    ensures CreatesGrant(e, id) ==> TablesAfter(t, e).pairings[id] == Terms(e)
  {
  }

  lemma GrantStays(t: Tables, e: StoreEvent, id: PairingId)
    requires id in t.pairings
    ensures var after := TablesAfter(t, e);
            && id in after.pairings
            && after.pairings[id].(consumedAtMs := None) == t.pairings[id].(consumedAtMs := None)
            && (IsSpent(after, id) <==> IsSpent(t, id) || Uses(t, e, id))
  {
  }

  /** A grant is in the store exactly when some event created it; the first one fixed its terms for good. */
  lemma {:induction false} GrantIsAsCreated(events: seq<StoreEvent>, n: nat, id: PairingId)
    requires n <= |events|
    ensures id in TablesOf(events[..n]).pairings <==> exists i: nat :: i < n && CreatedAt(events, i, id)
    ensures forall i: nat :: i < n && CreatedAt(events, i, id) ==>
              id in TablesOf(events[..n]).pairings
              && TablesOf(events[..n]).pairings[id].(consumedAtMs := None) == Terms(events[i])
  {
    if n > 0 {
      hide TablesAfter;
      assert events[..n][..n - 1] == events[..n - 1];
      var before := TablesOf(events[..n - 1]);
      GrantIsAsCreated(events, n - 1, id);
      if id in before.pairings {
        GrantStays(before, events[n - 1], id);
        var i: nat :| i < n - 1 && CreatedAt(events, i, id);
        assert forall j: nat :: CreatedAt(events, j, id) ==> j == i;
      } else {
        GrantAppears(before, events[n - 1], id);
        NotCreatedYet(events, n - 1, id);
        assert CreatesGrant(events[n - 1], id) ==> CreatedAt(events, n - 1, id);
      }
    }
  }

  lemma {:induction false} NotCreatedYet(events: seq<StoreEvent>, n: nat, id: PairingId)
    requires n <= |events| && forall i: nat :: i < n ==> !CreatedAt(events, i, id)
    ensures forall j :: 0 <= j < n ==> !CreatesGrant(events[j], id)
  {
    hide CreatesGrant;
    if n > 0 {
      NotCreatedYet(events, n - 1, id);
      assert !CreatedAt(events, n - 1, id);
    }
  }

  /** A grant is spent exactly when a consume or an exchange of it was not refused. */
  lemma {:induction false} SpentExactlyWhenUsed(events: seq<StoreEvent>, n: nat, id: PairingId)
    requires n <= |events|
    ensures IsSpent(TablesOf(events[..n]), id) <==> exists k: nat :: k < n && UsedAt(events, k, id)
  {
    if n > 0 {
      hide TablesAfter, IsSpent;
      assert events[..n][..n - 1] == events[..n - 1];
      var before := TablesOf(events[..n - 1]);
      SpentExactlyWhenUsed(events, n - 1, id);
      SpendingStep(before, events[n - 1], id);
      hide Uses;
      assert UsedAt(events, n - 1, id) <==> Uses(before, events[n - 1], id);
    }
  }

  lemma SpendingStep(t: Tables, e: StoreEvent, id: PairingId)
    ensures IsSpent(TablesAfter(t, e), id) <==> IsSpent(t, id) || Uses(t, e, id)
  {
    if id in t.pairings {
      GrantStays(t, e, id);
    } else {
      GrantAppears(t, e, id);
    }
  }

  /** The grant was created by the i-th event with this secret, has not expired, and nobody has used it. */
  predicate Open(events: seq<StoreEvent>, i: nat, id: PairingId, secret: Secret, nowMs: nat) {
    && CreatedAt(events, i, id) && events[i].secret == secret && nowMs < events[i].createMs + events[i].ttlMs
    && forall k :: 0 <= k < |events| ==> !UsedAt(events, k, id)
  }

  predicate OpenGrant(events: seq<StoreEvent>, id: PairingId, secret: Secret, nowMs: nat) {
    exists i: nat | i < |events| :: Open(events, i, id, secret, nowMs)
  }

  lemma OpenExactlyWhenNotRefused(events: seq<StoreEvent>, id: PairingId, secret: Secret, nowMs: nat)
    ensures OpenGrant(events, id, secret, nowMs) <==> Refusal(TablesOf(events), id, secret, nowMs).None?
    ensures OpenGrant(events, id, secret, nowMs) ==> nowMs <= SQL_MAX
  {
    hide StoreRun, Uses;
    var n := |events|;
    assert events[..n] == events;
    GrantIsAsCreated(events, n, id);
    SpentExactlyWhenUsed(events, n, id);
    if Refusal(TablesOf(events), id, secret, nowMs).None? {
      var i: nat :| i < n && CreatedAt(events, i, id);
      assert TablesOf(events).pairings[id].(consumedAtMs := None) == Terms(events[i]);
      assert Open(events, i, id, secret, nowMs);
    }
    if OpenGrant(events, id, secret, nowMs) {
      var i: nat :| i < n && Open(events, i, id, secret, nowMs);
      assert CreatedAt(events, i, id);
      assert TablesOf(events).pairings[id].(consumedAtMs := None) == Terms(events[i]);
    }
  }

  /** Over every run: a consume goes through exactly when the grant is open and no statement fails. */
  lemma ConsumeSucceedsExactlyWhen(events: seq<StoreEvent>, id: PairingId, secret: Secret, nowMs: nat, fault: Fault)
    ensures var (after, answer) := Consume(TablesOf(events), id, secret, nowMs, fault);
            && (!Refused(answer) <==>
                  OpenGrant(events, id, secret, nowMs) && (fault.Before? ==> fault.statement == InsertDevice))
            && (Refused(answer) ==> after == TablesOf(events))
            && (!Refused(answer) ==>
                  id in TablesOf(events).pairings && after == Spend(TablesOf(events), id, nowMs)
                  && (answer == None <==> fault == AfterCommit)
                  && (answer.Some? ==> answer == Some(Ok(after.pairings[id]))))
  {
    OpenExactlyWhenNotRefused(events, id, secret, nowMs);
    hide OpenGrant, StoreRun;
  }

  /**
   * Over every run: an exchange goes through exactly when the grant is open, its device is new and no
   * statement fails. It spends the grant and adds the one device, which carries the grant's name (or
   * its own, if the grant names none) and scopes, and its credential is what the caller is given.
   */
  lemma ExchangeSucceedsExactlyWhen(
    events: seq<StoreEvent>, id: PairingId, secret: Secret, descriptor: Descriptor,
    deviceId: DeviceId, token: Secret, nowMs: nat, fault: Fault)
    ensures var t := TablesOf(events);
            var (after, answer) := Exchange(t, id, secret, descriptor, deviceId, token, nowMs, fault);
            && (!Refused(answer) <==>
                  OpenGrant(events, id, secret, nowMs) && deviceId !in t.devices && !fault.Before?)
            && (Refused(answer) ==> after == t)
            && (!Refused(answer) ==>
                  && id in t.pairings && after.pairings == Spend(t, id, nowMs).pairings
                  && after.devices == t.devices[deviceId := Device(
                       if t.pairings[id].requestedName != "" then t.pairings[id].requestedName else descriptor.name,
                       descriptor.platform, t.pairings[id].scopes, token, nowMs, Some(nowMs), None)]
                  && (answer == None <==> fault == AfterCommit)
                  && (answer.Some? ==> answer == Some(Ok(Credential(deviceId, token, t.pairings[id].scopes)))))
  {
    OpenExactlyWhenNotRefused(events, id, secret, nowMs);
    hide OpenGrant, StoreRun;
  }

  // ----- what a credential opens -----

  /** The i-th event is an exchange that was answered with this credential. */
  predicate IssuedAt(events: seq<StoreEvent>, i: nat, credential: Credential)
    requires i < |events|
  {
    var e := events[i];
    && e.ExchangeGrant?
    && Exchange(TablesOf(events[..i]), e.pairingId, e.secret, e.descriptor, e.deviceId, e.token, e.nowMs, e.fault).1
       == Some(Ok(credential))
  }

  predicate RevokesDevice(e: StoreEvent, d: DeviceId) {
    e.RevokeDevice? && e.deviceId == d && e.nowMs <= SQL_MAX
  }

  predicate RevokedBetween(events: seq<StoreEvent>, i: nat, j: nat, d: DeviceId)
    requires j <= |events|
  {
    exists k :: i <= k < j && RevokesDevice(events[k], d)
  }

  /** A device keeps everything but when it was last seen, and is revoked exactly by revoking it. */
  lemma DeviceStays(t: Tables, e: StoreEvent, d: DeviceId)
    requires d in t.devices
    ensures var after := TablesAfter(t, e);
            && d in after.devices
            && after.devices[d].(lastSeenAtMs := None, revokedAtMs := None)
               == t.devices[d].(lastSeenAtMs := None, revokedAtMs := None)
            && (after.devices[d].revokedAtMs.Some? <==> t.devices[d].revokedAtMs.Some? || RevokesDevice(e, d))
  {
  }

  lemma {:induction false} DeviceIsAsIssued(events: seq<StoreEvent>, i: nat, j: nat, d: DeviceId)
    requires i <= j <= |events| && d in TablesOf(events[..i]).devices
    requires TablesOf(events[..i]).devices[d].revokedAtMs == None
    ensures d in TablesOf(events[..j]).devices
    ensures TablesOf(events[..j]).devices[d].(lastSeenAtMs := None, revokedAtMs := None)
            == TablesOf(events[..i]).devices[d].(lastSeenAtMs := None)
    ensures TablesOf(events[..j]).devices[d].revokedAtMs.Some? <==> RevokedBetween(events, i, j, d)
    decreases j
  {
    if i < j {
      hide TablesAfter, RevokesDevice;
      assert events[..j][..j - 1] == events[..j - 1];
      DeviceIsAsIssued(events, i, j - 1, d);
      DeviceStays(TablesOf(events[..j - 1]), events[j - 1], d);
    }
  }

  /**
   * The credential an exchange returned, at any later time: the device's token is taken, and no other,
   * exactly until the device is revoked. Who presents it is told the device that was paired: its name
   * and platform, the grant's scopes, and when it was paired.
   */
  lemma CredentialOpensItsDevice(
    events: seq<StoreEvent>, i: nat, j: nat, credential: Credential, token: Secret, nowMs: nat)
    requires i < j <= |events| && IssuedAt(events, i, credential)
    ensures var e := events[i];
            var (after, answer) := Authenticate(TablesOf(events[..j]), credential.deviceId, token, nowMs);
            && credential.deviceId == e.deviceId && credential.token == e.token
            && e.pairingId in TablesOf(events[..i]).pairings
            && credential.scopes == TablesOf(events[..i]).pairings[e.pairingId].scopes
            && (token != credential.token ==> answer == Err(BadCredential))
            && (token == credential.token && RevokedBetween(events, i + 1, j, credential.deviceId) ==>
                  answer == Err(DeviceRevoked))
            && (token == credential.token && !RevokedBetween(events, i + 1, j, credential.deviceId) && nowMs <= SQL_MAX ==>
                  answer == Ok(NewDevice(TablesOf(events[..i]).pairings[e.pairingId], e.descriptor, e.token, e.nowMs)
                               .(lastSeenAtMs := Some(nowMs))))
            && (answer.Err? ==> after == TablesOf(events[..j]))
            && (answer.Ok? ==> after == TablesOf(events[..j]).(
                  devices := TablesOf(events[..j]).devices[credential.deviceId := answer.value]))
  {
    hide RevokesDevice, Refusal;
    assert events[..i + 1][..i] == events[..i];
    var t := TablesOf(events[..i]);
    var e := events[i];
    ExchangeIssues(t, e, credential);
    assert TablesOf(events[..i + 1]) == TablesAfter(t, e);
    hide TablesAfter, StoreRun;
    DeviceIsAsIssued(events, i + 1, j, e.deviceId);
  }

  /**
   * Revoking a paired device, at any later time: the first call revokes it and says so, at its own
   * time; every other finds it revoked and changes nothing.
   */
  lemma FirstRevocationCounts(events: seq<StoreEvent>, i: nat, j: nat, credential: Credential, nowMs: nat)
    requires i < j <= |events| && IssuedAt(events, i, credential) && nowMs <= SQL_MAX
    ensures var t := TablesOf(events[..j]);
            var d := credential.deviceId;
            var (after, answer) := Revoke(t, d, nowMs);
            && d in t.devices
            && answer == Ok(!RevokedBetween(events, i + 1, j, d))
            && (!RevokedBetween(events, i + 1, j, d) ==>
                  after == t.(devices := t.devices[d := t.devices[d].(revokedAtMs := Some(nowMs))]))
            && (RevokedBetween(events, i + 1, j, d) ==> after == t)
  {
    hide RevokesDevice, Refusal;
    assert events[..i + 1][..i] == events[..i];
    ExchangeIssues(TablesOf(events[..i]), events[i], credential);
    assert TablesOf(events[..i + 1]) == TablesAfter(TablesOf(events[..i]), events[i]);
    hide TablesAfter, StoreRun;
    DeviceIsAsIssued(events, i + 1, j, events[i].deviceId);
  }

  lemma ExchangeIssues(t: Tables, e: StoreEvent, credential: Credential)
    requires e.ExchangeGrant?
    requires Exchange(t, e.pairingId, e.secret, e.descriptor, e.deviceId, e.token, e.nowMs, e.fault).1
             == Some(Ok(credential))
    ensures e.pairingId in t.pairings
    ensures credential == Credential(e.deviceId, e.token, t.pairings[e.pairingId].scopes)
    ensures e.deviceId in TablesAfter(t, e).devices
    ensures TablesAfter(t, e).devices[e.deviceId] == NewDevice(t.pairings[e.pairingId], e.descriptor, e.token, e.nowMs)
  {
  }
}
