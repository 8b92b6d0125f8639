/**
 * The history of one actor incarnation: the snapshot it started from and every update it recorded.
 * `At(h, k)` is the authoritative snapshot right after the first `k` updates.
 */
module ActorHistory {
  import opened Prelude
  import opened ControlState

  datatype InteractionLeaseError =
    | HeldByOther(lease: InteractionLease)
    | NotHeld
    | NotHolder(current: LeaseHolderId)
    | ExpiryOverflow
    | DurationTooLarge

  datatype AgentError =
    | RevisionExhausted
    | EventSequenceExhausted
    | LeaseRefused(error: InteractionLeaseError)

  datatype History = History(base: AgentSnapshot, log: seq<AgentUpdate>)

  function Advance(s: AgentSnapshot, update: AgentUpdate): AgentSnapshot {
    var applied := ApplyUpdate(s, update);
    if applied.Ok? then applied.value else s
  }

  function At(h: History, k: nat): AgentSnapshot
    requires k <= |h.log|
  {
    if k == 0 then h.base else Advance(At(h, k - 1), h.log[k - 1])
  }

  function Current(h: History): AgentSnapshot {
    At(h, |h.log|)
  }

  /** The update directly follows the snapshot, and a delta changes something a reader can see. */
  predicate IsNext(s: AgentSnapshot, update: AgentUpdate) {
    && update.Agent() == s.agentId
    && update.sequence == s.eventSequence + 1
    && (update.Delta? ==>
          && update.delta.baseRevision == s.revision
          && update.delta.revision == s.revision + 1
          && WouldChange(s, update.delta.change))
  }

  predicate NextAt(h: History, k: nat)
    requires k < |h.log|
  {
    IsNext(At(h, k), h.log[k])
  }

  predicate Genuine(h: History) {
    forall k :: 0 <= k < |h.log| ==> NextAt(h, k)
  }

  function Extend(h: History, update: AgentUpdate): History {
    h.(log := h.log + [update])
  }

  // ----- what the actor records -----

  /**
   * The delta an actor at `s` records for a change: none when nothing would change, an error when a
   * counter is full.
   */
  function DeltaFor(s: AgentSnapshot, change: AgentStateChange): Result<Option<AgentUpdate>, AgentError> {
    if !WouldChange(s, change) then Ok(None)
    else if s.revision == U64_MAX then Err(RevisionExhausted)
    else if s.eventSequence == U64_MAX then Err(EventSequenceExhausted)
    else Ok(Some(Delta(s.eventSequence + 1, StateDelta(s.agentId, s.revision, s.revision + 1, change))))
  }

  function EventFor(s: AgentSnapshot, event: ServerMessage): Result<AgentUpdate, AgentError> {
    if s.eventSequence == U64_MAX then Err(EventSequenceExhausted)
    else Ok(Event(s.agentId, s.eventSequence + 1, event))
  }

  /** Whatever the actor records directly follows its snapshot, so its own `apply_delta` can never refuse it. */
  lemma RecordedUpdatesAreNext(s: AgentSnapshot, change: AgentStateChange, event: ServerMessage)
    ensures var d := DeltaFor(s, change);
            d.Ok? && d.value.Some? ==> IsNext(s, d.value.value) && ApplyUpdate(s, d.value.value).Ok?
    ensures EventFor(s, event).Ok? ==> IsNext(s, EventFor(s, event).value)
  {
  }

  /** A genuine update is accepted and moves each counter by exactly the amount its kind prescribes. */
  lemma NextIsAccepted(s: AgentSnapshot, update: AgentUpdate)
    requires IsNext(s, update)
    ensures ApplyUpdate(s, update) == Ok(Advance(s, update))
    ensures Advance(s, update).agentId == s.agentId
    ensures Advance(s, update).eventSequence == s.eventSequence + 1
    ensures Advance(s, update).revision == s.revision + (if update.Delta? then 1 else 0)
    ensures Advance(s, update) != s.(eventSequence := s.eventSequence + 1) <==> update.Delta?
    ensures RunTableOk(s) ==> RunTableOk(Advance(s, update))
  {
    if update.Delta? {
      if RunTableOk(s) {
        ApplyChangeKeepsRunTable(s, update.delta.change);
      }
    }
  }

  /** Publishing the same change twice in a row records at most one delta. */
  lemma SameChangePublishesOnce(s: AgentSnapshot, change: AgentStateChange)
    requires DeltaFor(s, change).Ok? && DeltaFor(s, change).value.Some?
    ensures DeltaFor(Advance(s, DeltaFor(s, change).value.value), change) == Ok(None)
  {
    var after := Advance(s, DeltaFor(s, change).value.value);
    ApplyChangeIdempotent(s, change);
    var plain := ApplyChange(s, change);
    assert after == plain.(revision := after.revision, eventSequence := after.eventSequence);
    assert ApplyChange(after, change)
        == ApplyChange(plain, change).(revision := after.revision, eventSequence := after.eventSequence);
  }

  // ----- positions in a history -----

  lemma {:induction false} AtIgnoresLater(h: History, update: AgentUpdate, k: nat)
    requires k <= |h.log|
    ensures At(Extend(h, update), k) == At(h, k)
  {
    if k > 0 {
      AtIgnoresLater(h, update, k - 1);
    }
  }

  lemma ExtendIsGenuine(h: History, update: AgentUpdate)
    requires Genuine(h) && IsNext(Current(h), update)
    ensures Genuine(Extend(h, update))
    ensures Current(Extend(h, update)) == Advance(Current(h), update)
    ensures forall k :: 0 <= k <= |h.log| ==> At(Extend(h, update), k) == At(h, k)
  {
    hide Advance, IsNext;
    forall k | 0 <= k <= |h.log| ensures At(Extend(h, update), k) == At(h, k) {
      AtIgnoresLater(h, update, k);
    }
    forall k | 0 <= k <= |h.log| ensures NextAt(Extend(h, update), k) {
      assert k < |h.log| ==> NextAt(h, k);
    }
  }

  function CountDeltas(updates: seq<AgentUpdate>): nat {
    if updates == [] then 0
    else CountDeltas(updates[..|updates| - 1]) + (if updates[|updates| - 1].Delta? then 1 else 0)
  }

  /** Over any run the sequence gained is the number of updates and the revision gained the number of deltas. */
  lemma {:induction false} CountersCount(h: History, k: nat)
    requires Genuine(h) && k <= |h.log|
    ensures At(h, k).agentId == h.base.agentId
    ensures At(h, k).eventSequence == h.base.eventSequence + k
    ensures At(h, k).revision == h.base.revision + CountDeltas(h.log[..k])
    ensures RunTableOk(h.base) ==> RunTableOk(At(h, k))
  {
    hide Advance, IsNext;
    if k > 0 {
      CountersCount(h, k - 1);
      assert NextAt(h, k - 1);
      NextIsAccepted(At(h, k - 1), h.log[k - 1]);
      assert h.log[..k][..k - 1] == h.log[..k - 1];
    }
  }

  lemma {:induction false} RevisionsGrow(h: History, j: nat, k: nat)
    requires Genuine(h) && j <= k <= |h.log|
    ensures At(h, j).revision <= At(h, k).revision
  {
    if j < k {
      hide Advance, IsNext;
      RevisionsGrow(h, j, k - 1);
      assert NextAt(h, k - 1);
      NextIsAccepted(At(h, k - 1), h.log[k - 1]);
    }
  }

  // ----- folding updates -----

  function Fold(s: AgentSnapshot, updates: seq<AgentUpdate>): Result<AgentSnapshot, DeltaApplyError>
    decreases |updates|
  {
    if updates == [] then Ok(s)
    else
      var first := ApplyUpdate(s, updates[0]);
      if first.Err? then first else Fold(first.value, updates[1..])
  }

  /** Folding any suffix of the history from the snapshot it starts at reaches the current snapshot. */
  lemma {:induction false} SuffixFoldsToCurrent(h: History, k: nat)
    requires Genuine(h) && k <= |h.log|
    ensures Fold(At(h, k), h.log[k..]) == Ok(Current(h))
    decreases |h.log| - k
  {
    if k < |h.log| {
      hide Advance, IsNext, ApplyUpdate;
      assert NextAt(h, k);
      NextIsAccepted(At(h, k), h.log[k]);
      SuffixFoldsToCurrent(h, k + 1);
      assert h.log[k..][1..] == h.log[k + 1..];
    }
  }

  /** The snapshot is one the actor really had, at the event sequence it carries. */
  predicate IsPast(h: History, s: AgentSnapshot) {
    && h.base.eventSequence <= s.eventSequence <= h.base.eventSequence + |h.log|
    && s == At(h, s.eventSequence - h.base.eventSequence)
  }

  /** The update is the one the actor really recorded under that event sequence. */
  predicate IsRecorded(h: History, update: AgentUpdate) {
    && h.base.eventSequence < update.sequence <= h.base.eventSequence + |h.log|
    && update == h.log[update.sequence - h.base.eventSequence - 1]
  }

  /** A holder of a past snapshot that accepts a recorded update in sequence holds a past snapshot again. */
  lemma PastStepsToPast(h: History, s: AgentSnapshot, update: AgentUpdate)
    requires Genuine(h) && IsPast(h, s) && IsRecorded(h, update)
    requires update.sequence == s.eventSequence + 1
    ensures ApplyUpdate(s, update).Ok? && IsPast(h, ApplyUpdate(s, update).value)
  {
    hide Advance, IsNext, ApplyUpdate;
    var k := s.eventSequence - h.base.eventSequence;
    CountersCount(h, k);
    assert NextAt(h, k);
    NextIsAccepted(s, update);
    assert At(h, k + 1) == Advance(At(h, k), h.log[k]);
  }

  lemma PastStaysPast(h: History, update: AgentUpdate, s: AgentSnapshot)
    requires Genuine(h) && IsNext(Current(h), update) && IsPast(h, s)
    ensures IsPast(Extend(h, update), s)
  {
    hide Advance, IsNext;
    ExtendIsGenuine(h, update);
  }

  // ----- answering a resume cursor -----

  /** How many updates the bounded replay buffer still holds. */
  function Retained(h: History, capacity: nat): (n: nat)
    ensures n <= |h.log| && n <= capacity
  {
    |LastN(h.log, capacity)|
  }

  /**
   * When the fast replay path is sound and taken: the client is already current, or the cursor is
   * inside the retained window, carries the revision the actor had there, and the current sequence
   * is below the last representable one.
   */
  predicate Replayable(h: History, capacity: nat, cursor: SubscriptionCursor) {
    || cursor == CursorOf(Current(h))
    || (&& cursor.agentId == h.base.agentId
        && h.base.eventSequence + |h.log| < U64_MAX
        && h.base.eventSequence + |h.log| - Retained(h, capacity) <= cursor.eventSequence
        && cursor.eventSequence <= h.base.eventSequence + |h.log|
        && cursor.revision == At(h, cursor.eventSequence - h.base.eventSequence).revision)
  }

  function StartFor(h: History, capacity: nat, cursor: Option<SubscriptionCursor>): SubscriptionStart
    requires Genuine(h)
  {
    if cursor.None? then Snapshot(Current(h))
    else if Replayable(h, capacity, cursor.value) then
      CountersCount(h, |h.log|);
      Replay(h.log[cursor.value.eventSequence - h.base.eventSequence..])
    else ResyncRequired(Current(h))
  }

  /**
   * For a cursor that was once true the answer is a replay exactly while the buffer still reaches
   * back to it; at the last representable sequence even a retained suffix is refused.
   */
  lemma TrueCursorReplaysIffRetained(h: History, capacity: nat, k: nat)
    requires Genuine(h) && k <= |h.log|
    ensures var start := StartFor(h, capacity, Some(CursorOf(At(h, k))));
            if k == |h.log| || (k >= |h.log| - Retained(h, capacity) && Current(h).eventSequence < U64_MAX)
            then start == Replay(h.log[k..]) && Fold(At(h, k), h.log[k..]) == Ok(Current(h))
            else start == ResyncRequired(Current(h))
  {
    hide Advance, IsNext, At;
    CountersCount(h, k);
    CountersCount(h, |h.log|);
    SuffixFoldsToCurrent(h, k);
  }

  /** The refusal at the last sequence is real: a true cursor one event behind, still in the buffer, is not replayed. */
  lemma RetainedSuffixCanBeRefused(agentId: AgentId, event: ServerMessage)
    ensures var h := History(Initial(agentId).(eventSequence := U64_MAX - 1), [Event(agentId, U64_MAX, event)]);
            && Genuine(h) && Retained(h, 1) == |h.log| == 1
            && StartFor(h, 1, Some(CursorOf(At(h, 0)))) == ResyncRequired(Current(h))
  {
    var h := History(Initial(agentId).(eventSequence := U64_MAX - 1), [Event(agentId, U64_MAX, event)]);
    assert NextAt(h, 0);
    CountersCount(h, 1);
    TrueCursorReplaysIffRetained(h, 1, 0);
  }
}
