/** Agent snapshots, state deltas and updates, and what applying them does. */
module ControlState {
  import opened Prelude

  type AgentId = string
  type RunId = string
  type LeaseHolderId = string
  type AvailableSlashCommand = string

  datatype AgentLifecycle = Starting | Idle | Running | Stopping | Stopped | Interrupted | Failed(reason: string)

  datatype RunLifecycle = Queued | Running | Completed | Aborted | Interrupted | Failed(reason: string) {
    predicate IsTerminal() {
      Completed? || Aborted? || Interrupted? || Failed?
    }
  }

  datatype SessionSummary = SessionSummary(
    sessionId: string, sessionFile: Option<string>, name: Option<string>, messageCount: u64)

  datatype RunSnapshot = RunSnapshot(
    runId: RunId, lifecycle: RunLifecycle, startedAtMs: u64, endedAtMs: Option<u64>)

  datatype InteractionLease = InteractionLease(holder: LeaseHolderId, expiresAtMs: u64)

  datatype InteractionState = Unclaimed | Leased(lease: InteractionLease)

  datatype AgentSnapshot = AgentSnapshot(
    agentId: AgentId,
    revision: u64,
    eventSequence: u64,
    lifecycle: AgentLifecycle,
    session: Option<SessionSummary>,
    activeRun: Option<RunSnapshot>,
    recentRuns: seq<RunSnapshot>,
    interaction: InteractionState,
    availableCommands: seq<AvailableSlashCommand>)

  datatype AgentStateChange =
    | LifecycleChanged(lifecycle: AgentLifecycle)
    | SessionChanged(session: SessionSummary)
    | SessionCleared
    | RunUpserted(run: RunSnapshot)
    | RunRemoved(runId: RunId)
    | InteractionChanged(interaction: InteractionState)
    | AvailableCommandsChanged(commands: seq<AvailableSlashCommand>)

  datatype StateDelta = StateDelta(agentId: AgentId, baseRevision: u64, revision: u64, change: AgentStateChange)

  /** The runtime's messages are opaque here, except that extension UI requests travel as interactions. */
  datatype ServerMessage = ExtensionUi(request: string) | OtherMessage(payload: string)

  datatype AgentUpdate =
    | Delta(sequence: u64, delta: StateDelta)
    | Event(agentId: AgentId, sequence: u64, event: ServerMessage)
  {
    function Agent(): AgentId {
      if Delta? then delta.agentId else agentId
    }
  }

  datatype SubscriptionCursor = SubscriptionCursor(agentId: AgentId, revision: u64, eventSequence: u64)

  datatype SubscriptionStart =
    | Snapshot(snapshot: AgentSnapshot)
    | Replay(updates: seq<AgentUpdate>)
    | ResyncRequired(snapshot: AgentSnapshot)

  datatype DeltaApplyError =
    | WrongAgent(expected: AgentId, actual: AgentId)
    | RevisionMismatch(localRevision: u64, base: u64)
    | NonConsecutiveRevision(base: u64, revision: u64)
    | StaleEventSequence(localSequence: u64, incoming: u64)

  function Initial(agentId: AgentId): AgentSnapshot {
    AgentSnapshot(agentId, 0, 0, Starting, None, None, [], Unclaimed, [])
  }

  function CursorOf(s: AgentSnapshot): SubscriptionCursor {
    SubscriptionCursor(s.agentId, s.revision, s.eventSequence)
  }

  // ----- changes -----

  /** `Vec::retain` on the run identifier. */
  function WithoutRun(runs: seq<RunSnapshot>, runId: RunId): seq<RunSnapshot> {
    if runs == [] then []
    else if runs[0].runId == runId then WithoutRun(runs[1..], runId)
    else [runs[0]] + WithoutRun(runs[1..], runId)
  }

  function ClearActive(active: Option<RunSnapshot>, runId: RunId): Option<RunSnapshot> {
    if active.Some? && active.value.runId == runId then None else active
  }

  function ApplyChange(s: AgentSnapshot, change: AgentStateChange): AgentSnapshot {
    match change
    case LifecycleChanged(lifecycle) => s.(lifecycle := lifecycle)
    case SessionChanged(session) => s.(session := Some(session))
    case SessionCleared => s.(session := None)
    case RunUpserted(run) =>
      var others := WithoutRun(s.recentRuns, run.runId);
      if run.lifecycle.IsTerminal() then
        s.(activeRun := ClearActive(s.activeRun, run.runId), recentRuns := others + [run])
      else
        s.(activeRun := Some(run), recentRuns := others)
    case RunRemoved(runId) =>
      s.(activeRun := ClearActive(s.activeRun, runId), recentRuns := WithoutRun(s.recentRuns, runId))
    case InteractionChanged(interaction) => s.(interaction := interaction)
    case AvailableCommandsChanged(commands) => s.(availableCommands := commands)
  }

  predicate WouldChange(s: AgentSnapshot, change: AgentStateChange) {
    ApplyChange(s, change) != s
  }

  // ----- updates -----

  function ValidateUpdateCursor(s: AgentSnapshot, agentId: AgentId, sequence: u64): Option<DeltaApplyError> {
    if agentId != s.agentId then Some(WrongAgent(s.agentId, agentId))
    else if sequence <= s.eventSequence then Some(StaleEventSequence(s.eventSequence, sequence))
    else None
  }

  function ApplyDelta(s: AgentSnapshot, delta: StateDelta, sequence: u64): Result<AgentSnapshot, DeltaApplyError> {
    var invalid := ValidateUpdateCursor(s, delta.agentId, sequence);
    if invalid.Some? then Err(invalid.value)
    else if delta.baseRevision != s.revision then Err(RevisionMismatch(s.revision, delta.baseRevision))
    else if delta.revision != (if delta.baseRevision == U64_MAX then U64_MAX else delta.baseRevision + 1) then
      Err(NonConsecutiveRevision(delta.baseRevision, delta.revision))
    else Ok(ApplyChange(s, delta.change).(revision := delta.revision, eventSequence := sequence))
  }

  function ApplyUpdate(s: AgentSnapshot, update: AgentUpdate): Result<AgentSnapshot, DeltaApplyError> {
    match update
    case Delta(sequence, delta) => ApplyDelta(s, delta, sequence)
    case Event(agentId, sequence, _) =>
      var invalid := ValidateUpdateCursor(s, agentId, sequence);
      if invalid.Some? then Err(invalid.value) else Ok(s.(eventSequence := sequence))
  }

  // ----- the run table -----

  predicate HasRun(runs: seq<RunSnapshot>, runId: RunId) {
    exists i :: 0 <= i < |runs| && runs[i].runId == runId
  }

  predicate DistinctRuns(runs: seq<RunSnapshot>) {
    forall i, j :: 0 <= i < j < |runs| ==> runs[i].runId != runs[j].runId
  }

  predicate RunTableOk(s: AgentSnapshot) {
    && DistinctRuns(s.recentRuns)
    && (forall run :: run in s.recentRuns ==> run.lifecycle.IsTerminal())
    && (s.activeRun.Some? ==>
          !s.activeRun.value.lifecycle.IsTerminal() && !HasRun(s.recentRuns, s.activeRun.value.runId))
  }

  /** Dropping a run keeps exactly the entries with another identifier, in their order. */
  lemma WithoutRunKeepsOthers(runs: seq<RunSnapshot>, runId: RunId)
    ensures forall run :: run in WithoutRun(runs, runId) <==> run in runs && run.runId != runId
    ensures !HasRun(WithoutRun(runs, runId), runId)
    ensures DistinctRuns(runs) ==> DistinctRuns(WithoutRun(runs, runId))
    ensures !HasRun(runs, runId) ==> WithoutRun(runs, runId) == runs
  {
    WithoutRunMembers(runs, runId);
    if DistinctRuns(runs) {
      WithoutRunDistinct(runs, runId);
    }
    if !HasRun(runs, runId) {
      WithoutAbsentRun(runs, runId);
    }
  }

  lemma {:induction false} WithoutRunMembers(runs: seq<RunSnapshot>, runId: RunId)
    ensures forall run :: run in WithoutRun(runs, runId) <==> run in runs && run.runId != runId
  {
    if runs != [] {
      WithoutRunMembers(runs[1..], runId);
      assert runs == [runs[0]] + runs[1..];
    }
  }

  lemma {:induction false} WithoutRunDistinct(runs: seq<RunSnapshot>, runId: RunId)
    requires DistinctRuns(runs)
    ensures DistinctRuns(WithoutRun(runs, runId))
  {
    if runs != [] {
      var rest := WithoutRun(runs[1..], runId);
      assert DistinctRuns(runs[1..]);
      WithoutRunDistinct(runs[1..], runId);
      WithoutRunMembers(runs[1..], runId);
      forall i | 0 <= i < |rest| ensures rest[i].runId != runs[0].runId {
        assert rest[i] in runs[1..];
      }
    }
  }

  lemma {:induction false} WithoutAbsentRun(runs: seq<RunSnapshot>, runId: RunId)
    requires !HasRun(runs, runId)
    ensures WithoutRun(runs, runId) == runs
  {
    if runs != [] {
      assert runs[0].runId != runId;
      forall i | 0 <= i < |runs[1..]| ensures runs[1..][i].runId != runId {
        assert runs[1..][i] == runs[i + 1];
      }
      WithoutAbsentRun(runs[1..], runId);
      assert runs == [runs[0]] + runs[1..];
    }
  }

  lemma HasRunIsMembership(runs: seq<RunSnapshot>, runId: RunId)
    ensures HasRun(runs, runId) <==> exists run :: run in runs && run.runId == runId
  {
    if HasRun(runs, runId) {
      var i :| 0 <= i < |runs| && runs[i].runId == runId;
      assert runs[i] in runs;
    }
  }

  /** Every change keeps the run table well formed. */
  lemma ApplyChangeKeepsRunTable(s: AgentSnapshot, change: AgentStateChange)
    requires RunTableOk(s)
    ensures RunTableOk(ApplyChange(s, change))
  {
    hide WithoutRun, DistinctRuns, HasRun;
    if change.RunUpserted? || change.RunRemoved? {
      var runId := if change.RunUpserted? then change.run.runId else change.runId;
      DroppingKeepsTable(s, runId);
      if change.RunUpserted? {
        PushKeepsDistinct(WithoutRun(s.recentRuns, runId), change.run);
      }
    }
  }

  lemma DroppingKeepsTable(s: AgentSnapshot, runId: RunId)
    requires RunTableOk(s)
    ensures var others := WithoutRun(s.recentRuns, runId);
            && DistinctRuns(others) && !HasRun(others, runId)
            && (forall run :: run in others ==> run.lifecycle.IsTerminal())
            && (s.activeRun.Some? ==> !HasRun(others, s.activeRun.value.runId))
  {
    hide WithoutRun, DistinctRuns;
    WithoutRunKeepsOthers(s.recentRuns, runId);
    if s.activeRun.Some? {
      HasRunIsMembership(s.recentRuns, s.activeRun.value.runId);
      HasRunIsMembership(WithoutRun(s.recentRuns, runId), s.activeRun.value.runId);
    }
  }

  lemma PushKeepsDistinct(runs: seq<RunSnapshot>, run: RunSnapshot)
    requires DistinctRuns(runs) && !HasRun(runs, run.runId)
    ensures DistinctRuns(runs + [run])
    ensures forall runId :: HasRun(runs + [run], runId) ==> HasRun(runs, runId) || runId == run.runId
  {
  }

  /** Applying the same change a second time leaves nothing to publish. */
  lemma ApplyChangeIdempotent(s: AgentSnapshot, change: AgentStateChange)
    ensures ApplyChange(ApplyChange(s, change), change) == ApplyChange(s, change)
    ensures !WouldChange(ApplyChange(s, change), change)
  {
    hide WithoutRun, ClearActive;
    match change {
      case RunUpserted(run) => UpsertTwice(s, run);
      case RunRemoved(runId) => RemoveTwice(s, runId);
      case _ =>
    }
  }

  lemma UpsertTwice(s: AgentSnapshot, run: RunSnapshot)
    ensures ApplyChange(ApplyChange(s, RunUpserted(run)), RunUpserted(run)) == ApplyChange(s, RunUpserted(run))
  {
    WithoutRunTwice(s.recentRuns, run.runId);
    WithoutRunDropsLast(WithoutRun(s.recentRuns, run.runId), run);
    hide WithoutRun;
  }

  lemma RemoveTwice(s: AgentSnapshot, runId: RunId)
    ensures ApplyChange(ApplyChange(s, RunRemoved(runId)), RunRemoved(runId)) == ApplyChange(s, RunRemoved(runId))
  {
    WithoutRunTwice(s.recentRuns, runId);
    hide WithoutRun;
  }

  lemma WithoutRunTwice(runs: seq<RunSnapshot>, runId: RunId)
    ensures WithoutRun(WithoutRun(runs, runId), runId) == WithoutRun(runs, runId)
  {
    WithoutRunKeepsOthers(runs, runId);
    WithoutAbsentRun(WithoutRun(runs, runId), runId);
  }

  lemma {:induction false} WithoutRunDropsLast(runs: seq<RunSnapshot>, last: RunSnapshot)
    ensures WithoutRun(runs + [last], last.runId) == WithoutRun(runs, last.runId)
  {
    if runs == [] {
      assert runs + [last] == [last];
      assert WithoutRun([last][1..], last.runId) == [];
    } else {
      assert (runs + [last])[1..] == runs[1..] + [last];
      WithoutRunDropsLast(runs[1..], last);
    }
  }

  /** The run recorded under an identifier: the active run first, then the finished ones. */
  function LookupRun(s: AgentSnapshot, runId: RunId): Option<RunSnapshot> {
    if s.activeRun.Some? && s.activeRun.value.runId == runId then s.activeRun
    else FindRun(s.recentRuns, runId)
  }

  function FindRun(runs: seq<RunSnapshot>, runId: RunId): Option<RunSnapshot> {
    if runs == [] then None
    else if runs[0].runId == runId then Some(runs[0])
    else FindRun(runs[1..], runId)
  }

  lemma {:induction false} FindAfterWithout(runs: seq<RunSnapshot>, dropped: RunId, runId: RunId)
    ensures FindRun(WithoutRun(runs, dropped), runId) == if runId == dropped then None else FindRun(runs, runId)
  {
    if runs != [] {
      FindAfterWithout(runs[1..], dropped, runId);
      var rest := WithoutRun(runs[1..], dropped);
      assert ([runs[0]] + rest)[1..] == rest;
    }
  }

  lemma {:induction false} FindAfterPush(runs: seq<RunSnapshot>, run: RunSnapshot, runId: RunId)
    ensures FindRun(runs + [run], runId) ==
            if FindRun(runs, runId).Some? then FindRun(runs, runId)
            else if run.runId == runId then Some(run) else None
  {
    if runs == [] {
      assert runs + [run] == [run];
      assert FindRun([run][1..], runId) == None;
    } else {
      assert (runs + [run])[1..] == runs[1..] + [run];
      FindAfterPush(runs[1..], run, runId);
    }
  }

  /**
   * Read as a table from identifiers to runs, an upsert is last-writer-wins, and it disturbs another
   * run in one case only: a running run displaces a different active run, which is then forgotten.
   */
  lemma UpsertIsLastWriterWins(s: AgentSnapshot, run: RunSnapshot, runId: RunId)
    requires RunTableOk(s)
    ensures var after := ApplyChange(s, RunUpserted(run));
            LookupRun(after, runId) ==
            if runId == run.runId then Some(run)
            else if !run.lifecycle.IsTerminal() && s.activeRun.Some? && s.activeRun.value.runId == runId then None
            else LookupRun(s, runId)
  {
    var others := WithoutRun(s.recentRuns, run.runId);
    FindAfterWithout(s.recentRuns, run.runId, runId);
    FindAfterPush(others, run, runId);
    if s.activeRun.Some? {
      var active := s.activeRun.value.runId;
      FindRunIsMembership(s.recentRuns, active);
    }
  }

  lemma {:induction false} FindRunIsMembership(runs: seq<RunSnapshot>, runId: RunId)
    ensures FindRun(runs, runId).Some? <==> HasRun(runs, runId)
  {
    if runs != [] {
      FindRunIsMembership(runs[1..], runId);
      HasRunIsMembership(runs, runId);
      HasRunIsMembership(runs[1..], runId);
      assert runs == [runs[0]] + runs[1..];
    }
  }

  /** After a removal the identifier is gone and every other run is untouched. */
  lemma RemovalForgetsOneRun(s: AgentSnapshot, removed: RunId, runId: RunId)
    ensures LookupRun(ApplyChange(s, RunRemoved(removed)), runId) ==
            if runId == removed then None else LookupRun(s, runId)
  {
    FindAfterWithout(s.recentRuns, removed, runId);
  }
}
