/** The server frames a client receives and the reducer that replicates agent state from them. */
module Reducer {
  import opened Prelude
  import opened ControlState
  import opened ActorHistory

  datatype ReplayGapReason = NonContiguousCursor | SlowConsumer

  datatype ServerFrame =
    | SnapshotFrame(agents: seq<AgentSnapshot>)
    | DeltaFrame(sequence: u64, delta: StateDelta)
    | EventFrame(agentId: AgentId, sequence: u64, event: ServerMessage)
    | InteractionRequest(agentId: AgentId, sequence: u64, request: string)
    | ReplayGap(agentId: AgentId, revision: u64, sequence: u64, reason: ReplayGapReason)
    | OtherFrame

  datatype ReplicationEffect =
    | StateChanged(agentId: AgentId)
    | EventReceived(agentId: AgentId, sequence: u64, event: ServerMessage)
    | Interaction(agentId: AgentId, sequence: u64, request: string)
    | NeedsResync(agentId: AgentId)

  datatype ReplicationError =
    | MissingSnapshot(agentId: AgentId)
    | ResyncPending(agentId: AgentId)
    | NonContiguousEventSequence(localSequence: u64, incoming: u64)
    | ReplicaSequenceExhausted
    | DeltaRefused(error: DeltaApplyError)

  type Outcome = Result<seq<ReplicationEffect>, ReplicationError>

  /** The frame an update travels in. */
  function FrameOf(update: AgentUpdate): ServerFrame {
    match update
    case Delta(sequence, delta) => DeltaFrame(sequence, delta)
    case Event(agentId, sequence, ExtensionUi(request)) => InteractionRequest(agentId, sequence, request)
    case Event(agentId, sequence, event) => EventFrame(agentId, sequence, event)
  }

  /** The update a frame carries, if it is one of the three sequenced kinds. */
  function UpdateIn(frame: ServerFrame): Option<AgentUpdate> {
    match frame
    case DeltaFrame(sequence, delta) => Some(Delta(sequence, delta))
    case EventFrame(agentId, sequence, event) => Some(Event(agentId, sequence, event))
    case InteractionRequest(agentId, sequence, request) => Some(Event(agentId, sequence, ExtensionUi(request)))
    case _ => None
  }

  lemma FrameCarriesUpdate(update: AgentUpdate)
    ensures UpdateIn(FrameOf(update)) == Some(update)
  {
  }

  // ----- what the reducer is supposed to do -----

  datatype Replica = Replica(agents: map<AgentId, AgentSnapshot>, resyncRequired: set<AgentId>)

  function Cursor(r: Replica, agentId: AgentId): Option<SubscriptionCursor> {
    if agentId in r.resyncRequired || agentId !in r.agents then None else Some(CursorOf(r.agents[agentId]))
  }

  /** Why an update cannot be applied; None exactly when it directly continues an unflagged snapshot. */
  function Rejection(r: Replica, update: AgentUpdate): Option<ReplicationError> {
    var a := update.Agent();
    if a !in r.agents then Some(MissingSnapshot(a))
    else if a in r.resyncRequired then Some(ResyncPending(a))
    else if r.agents[a].eventSequence == U64_MAX then Some(ReplicaSequenceExhausted)
    else if update.sequence != r.agents[a].eventSequence + 1 then
      Some(NonContiguousEventSequence(r.agents[a].eventSequence, update.sequence))
    else
      match update
      case Delta(sequence, delta) =>
        var applied := ApplyDelta(r.agents[a], delta, sequence);
        if applied.Err? then Some(DeltaRefused(applied.error)) else None
      case Event(_, _, _) => None
  }

  function EffectOf(frame: ServerFrame): ReplicationEffect
    requires UpdateIn(frame).Some?
  {
    match frame
    case DeltaFrame(_, delta) => StateChanged(delta.agentId)
    case EventFrame(agentId, sequence, event) => EventReceived(agentId, sequence, event)
    case InteractionRequest(agentId, sequence, request) => Interaction(agentId, sequence, request)
  }

  function Flag(r: Replica, agentId: AgentId): Replica {
    r.(resyncRequired := r.resyncRequired + {agentId})
  }

  function Install(r: Replica, agents: seq<AgentSnapshot>): Replica {
    if agents == [] then r
    else
      var last := agents[|agents| - 1];
      var before := Install(r, agents[..|agents| - 1]);
      Replica(before.agents[last.agentId := last], before.resyncRequired - {last.agentId})
  }

  /**
   * The replica after a frame: an accepted update is `apply_update` on the held snapshot, a rejected
   * one only flags.
   */
  function Reduce(r: Replica, frame: ServerFrame): Replica {
    match frame
    case SnapshotFrame(agents) => Install(r, agents)
    case ReplayGap(agentId, _, _, _) => Flag(r, agentId)
    case OtherFrame => r
    case _ =>
      var update := UpdateIn(frame).value;
      var a := update.Agent();
      if Rejection(r, update).Some? then Flag(r, a)
      else r.(agents := r.agents[a := Advance(r.agents[a], update)])
  }

  function OutcomeOf(r: Replica, frame: ServerFrame): Outcome {
    match frame
    case SnapshotFrame(agents) => Ok(seq(|agents|, i requires 0 <= i < |agents| => StateChanged(agents[i].agentId)))
    case ReplayGap(agentId, _, _, _) => Ok([NeedsResync(agentId)])
    case OtherFrame => Ok([])
    case _ =>
      var rejection := Rejection(r, UpdateIn(frame).value);
      if rejection.Some? then Err(rejection.value) else Ok([EffectOf(frame)])
  }

  class ReplicatedState {
    var agents: map<AgentId, AgentSnapshot>
    var resyncRequired: set<AgentId>

    ghost function View(): Replica
      reads this
    {
      Replica(agents, resyncRequired)
    }

    /** Every snapshot is filed under its own agent, so a delta can never reach another agent's snapshot. */
    ghost predicate Valid()
      reads this
    {
      Filed(View())
    }

    constructor ()
      ensures Valid() && View() == Replica(map[], {})
    {
      agents, resyncRequired := map[], {};
    }

    method Apply(frame: ServerFrame) returns (outcome: Outcome)
      requires Valid()
      modifies this
      ensures Valid()
      ensures View() == Reduce(old(View()), frame)
      ensures outcome == OutcomeOf(old(View()), frame)
    {
      ReduceKeepsFiled(View(), frame);
      match frame {
        case SnapshotFrame(snapshots) =>
          var effects := ApplySnapshot(snapshots);
          return Ok(effects);
        case DeltaFrame(sequence, delta) =>
          var agentId := delta.agentId;
          var applied := ApplySequencedDelta(sequence, delta);
          if applied.Err? {
            resyncRequired := resyncRequired + {agentId};
            return Err(applied.error);
          }
          return Ok([StateChanged(agentId)]);
        case EventFrame(agentId, sequence, event) =>
          var moved := MoveSequence(agentId, sequence);
          if moved.Err? {
            resyncRequired := resyncRequired + {agentId};
            return Err(moved.error);
          }
          return Ok([EventReceived(agentId, sequence, event)]);
        case InteractionRequest(agentId, sequence, request) =>
          var moved := MoveSequence(agentId, sequence);
          if moved.Err? {
            resyncRequired := resyncRequired + {agentId};
            return Err(moved.error);
          }
          return Ok([Interaction(agentId, sequence, request)]);
        case ReplayGap(agentId, _, _, _) =>
          resyncRequired := resyncRequired + {agentId};
          return Ok([NeedsResync(agentId)]);
        case OtherFrame =>
          return Ok([]);
      }
    }

    method ApplySnapshot(snapshots: seq<AgentSnapshot>) returns (effects: seq<ReplicationEffect>)
      modifies this
      ensures View() == Install(old(View()), snapshots)
      ensures Ok(effects) == OutcomeOf(old(View()), SnapshotFrame(snapshots))
    {
      effects := [];
      for i := 0 to |snapshots|
        invariant View() == Install(old(View()), snapshots[..i])
        invariant effects == seq(i, j requires 0 <= j < i => StateChanged(snapshots[j].agentId))
      {
        var agent := snapshots[i];
        resyncRequired := resyncRequired - {agent.agentId};
        agents := agents[agent.agentId := agent];
        effects := effects + [StateChanged(agent.agentId)];
        assert snapshots[..i + 1][..i] == snapshots[..i];
      }
      assert snapshots[..|snapshots|] == snapshots;
    }

    method ApplySequencedDelta(sequence: u64, delta: StateDelta) returns (result: Result<(), ReplicationError>)
      requires Valid()
      modifies this`agents
      ensures var rejection := Rejection(old(View()), Delta(sequence, delta));
              if rejection.Some? then result == Err(rejection.value) && View() == old(View())
              else result == Ok(()) && View() == Reduce(old(View()), DeltaFrame(sequence, delta))
    {
      var agentId := delta.agentId;
      if agentId !in agents {
        return Err(MissingSnapshot(agentId));
      }
      var snapshot := agents[agentId];
      if agentId in resyncRequired {
        return Err(ResyncPending(agentId));
      }
      var next := RequireNextSequence(snapshot.eventSequence, sequence);
      if next.Err? {
        return next;
      }
      var applied := ApplyDelta(snapshot, delta, sequence);
      if applied.Err? {
        return Err(DeltaRefused(applied.error));
      }
      agents := agents[agentId := applied.value];
      return Ok(());
    }

    method MoveSequence(agentId: AgentId, sequence: u64) returns (result: Result<(), ReplicationError>)
      requires Valid()
      modifies this`agents
      ensures forall event :: var update := Event(agentId, sequence, event);
                var rejection := Rejection(old(View()), update);
                if rejection.Some? then result == Err(rejection.value) && View() == old(View())
                else result == Ok(()) && View() == Reduce(old(View()), FrameOf(update))
    {
      if agentId !in agents {
        return Err(MissingSnapshot(agentId));
      }
      var snapshot := agents[agentId];
      if agentId in resyncRequired {
        return Err(ResyncPending(agentId));
      }
      var next := RequireNextSequence(snapshot.eventSequence, sequence);
      if next.Err? {
        return next;
      }
      agents := agents[agentId := snapshot.(eventSequence := sequence)];
      return Ok(());
    }
  }

  function RequireNextSequence(current: u64, incoming: u64): Result<(), ReplicationError> {
    if current == U64_MAX then Err(ReplicaSequenceExhausted)
    else if incoming != current + 1 then Err(NonContiguousEventSequence(current, incoming))
    else Ok(())
  }

  predicate Filed(r: Replica) {
    forall a :: a in r.agents ==> r.agents[a].agentId == a
  }

  /** Installing snapshots replaces and unflags exactly the agents they name, and files each under its own agent. */
  lemma InstallEffect(r: Replica, agents: seq<AgentSnapshot>)
    ensures forall a :: a in Install(r, agents).agents ==>
              Install(r, agents).agents[a] in agents || (a in r.agents && Install(r, agents).agents[a] == r.agents[a])
    ensures forall a :: (exists i :: 0 <= i < |agents| && agents[i].agentId == a) ==>
              a in Install(r, agents).agents && a !in Install(r, agents).resyncRequired
    ensures forall a :: (forall i :: 0 <= i < |agents| ==> agents[i].agentId != a) ==>
              && (a in Install(r, agents).agents <==> a in r.agents)
              && (a in r.agents ==> Install(r, agents).agents[a] == r.agents[a])
              && (a in Install(r, agents).resyncRequired <==> a in r.resyncRequired)
    ensures Filed(r) ==> Filed(Install(r, agents))
  {
    InstalledSnapshots(r, agents);
    InstalledAgents(r, agents);
    InstallIgnoresOthers(r, agents);
  }

  lemma {:induction false} InstalledSnapshots(r: Replica, agents: seq<AgentSnapshot>)
    ensures forall a :: a in Install(r, agents).agents ==>
              Install(r, agents).agents[a] in agents || (a in r.agents && Install(r, agents).agents[a] == r.agents[a])
    ensures Filed(r) ==> Filed(Install(r, agents))
  {
    if agents != [] {
      var k := |agents| - 1;
      InstalledSnapshots(r, agents[..k]);
      assert agents == agents[..k] + [agents[k]];
    }
  }

  lemma {:induction false} InstalledAgents(r: Replica, agents: seq<AgentSnapshot>)
    ensures forall i :: 0 <= i < |agents| ==>
              agents[i].agentId in Install(r, agents).agents && agents[i].agentId !in Install(r, agents).resyncRequired
  {
    if agents != [] {
      var k := |agents| - 1;
      InstalledAgents(r, agents[..k]);
      forall i | 0 <= i < k
        ensures agents[i].agentId in Install(r, agents[..k]).agents
        ensures agents[i].agentId !in Install(r, agents[..k]).resyncRequired
      {
        assert agents[..k][i] == agents[i];
      }
    }
  }

  lemma {:induction false} InstallIgnoresOthers(r: Replica, agents: seq<AgentSnapshot>)
    ensures forall a :: (forall i :: 0 <= i < |agents| ==> agents[i].agentId != a) ==>
              && (a in Install(r, agents).agents <==> a in r.agents)
              && (a in r.agents ==> Install(r, agents).agents[a] == r.agents[a])
              && (a in Install(r, agents).resyncRequired <==> a in r.resyncRequired)
  {
    if agents != [] {
      InstallIgnoresOthers(r, agents[..|agents| - 1]);
    }
  }

  lemma ReduceKeepsFiled(r: Replica, frame: ServerFrame)
    requires Filed(r)
    ensures Filed(Reduce(r, frame))
  {
    if frame.SnapshotFrame? {
      InstallEffect(r, frame.agents);
    }
  }

  // ----- fail closed -----

  predicate Names(frame: ServerFrame, agentId: AgentId) {
    frame.SnapshotFrame? && exists i :: 0 <= i < |frame.agents| && frame.agents[i].agentId == agentId
  }

  /** The reducer accepts an update only if `apply_update` accepts it too, with the same resulting snapshot. */
  lemma AcceptedUpdatesApply(r: Replica, frame: ServerFrame)
    requires Filed(r) && UpdateIn(frame).Some? && OutcomeOf(r, frame).Ok?
    ensures var update := UpdateIn(frame).value;
            && update.Agent() in r.agents
            && ApplyUpdate(r.agents[update.Agent()], update) == Ok(Reduce(r, frame).agents[update.Agent()])
            && Reduce(r, frame).resyncRequired == r.resyncRequired
  {
  }

  /** A rejected update changes no snapshot, flags only its own agent, and takes that agent's cursor away. */
  lemma RejectionOnlyFlags(r: Replica, frame: ServerFrame)
    requires OutcomeOf(r, frame).Err?
    ensures UpdateIn(frame).Some?
    ensures Reduce(r, frame).agents == r.agents
    ensures Reduce(r, frame).resyncRequired == r.resyncRequired + {UpdateIn(frame).value.Agent()}
    ensures Cursor(Reduce(r, frame), UpdateIn(frame).value.Agent()) == None
    ensures forall a :: a != UpdateIn(frame).value.Agent() ==> Cursor(Reduce(r, frame), a) == Cursor(r, a)
  {
  }

  /** The update is the very next one for an unflagged held snapshot, and that snapshot accepts it. */
  predicate Continues(r: Replica, update: AgentUpdate) {
    && update.Agent() in r.agents && update.Agent() !in r.resyncRequired
    && update.sequence == r.agents[update.Agent()].eventSequence + 1
    && ApplyUpdate(r.agents[update.Agent()], update).Ok?
  }

  /**
   * Exactly when an agent is flagged after a frame: it was and no snapshot of it came, a gap names
   * it, or one of its updates came that does not continue what is held.
   */
  lemma FlaggedExactlyWhen(r: Replica, frame: ServerFrame, agentId: AgentId)
    requires Filed(r)
    ensures agentId in Reduce(r, frame).resyncRequired <==>
            || (agentId in r.resyncRequired && !Names(frame, agentId))
            || (frame.ReplayGap? && frame.agentId == agentId)
            || (UpdateIn(frame).Some? && UpdateIn(frame).value.Agent() == agentId && !Continues(r, UpdateIn(frame).value))
  {
    hide ApplyChange;
    if frame.SnapshotFrame? {
      InstallEffect(r, frame.agents);
    }
  }

  function ReduceAll(r: Replica, frames: seq<ServerFrame>): Replica
    decreases |frames|
  {
    if frames == [] then r else ReduceAll(Reduce(r, frames[0]), frames[1..])
  }

  /**
   * Fail closed, over every frame sequence, genuine or not: once an agent is flagged, its snapshot is
   * frozen, its cursor is gone, and each of its updates is rejected until a snapshot frame names it.
   */
  lemma {:induction false} FlaggedStaysFrozen(r: Replica, frames: seq<ServerFrame>, agentId: AgentId, next: ServerFrame)
    requires agentId in r.resyncRequired
    requires forall i :: 0 <= i < |frames| ==> !Names(frames[i], agentId)
    requires UpdateIn(next).Some? && UpdateIn(next).value.Agent() == agentId
    ensures var after := ReduceAll(r, frames);
            && agentId in after.resyncRequired
            && Cursor(after, agentId) == None
            && (agentId in after.agents <==> agentId in r.agents)
            && (agentId in r.agents ==> after.agents[agentId] == r.agents[agentId])
            && OutcomeOf(after, next).Err?
    decreases |frames|
  {
    if frames != [] {
      FrozenStep(r, frames[0], agentId);
      forall i | 0 <= i < |frames[1..]| ensures !Names(frames[1..][i], agentId) {
        assert frames[1..][i] == frames[i + 1];
      }
      hide Reduce, OutcomeOf;
      FlaggedStaysFrozen(Reduce(r, frames[0]), frames[1..], agentId, next);
    }
  }

  lemma FrozenStep(r: Replica, frame: ServerFrame, agentId: AgentId)
    requires agentId in r.resyncRequired && !Names(frame, agentId)
    ensures var after := Reduce(r, frame);
            && agentId in after.resyncRequired
            && (agentId in after.agents <==> agentId in r.agents)
            && (agentId in r.agents ==> after.agents[agentId] == r.agents[agentId])
  {
    if frame.SnapshotFrame? {
      InstallEffect(r, frame.agents);
    } else if UpdateIn(frame).Some? {
      hide Advance;
    }
  }

  /** A replica whose snapshots have well-formed run tables keeps them so, whatever deltas it folds. */
  lemma ReplicaKeepsRunTables(r: Replica, frame: ServerFrame)
    requires Filed(r)
    requires forall a :: a in r.agents ==> RunTableOk(r.agents[a])
    requires frame.SnapshotFrame? ==> forall s :: s in frame.agents ==> RunTableOk(s)
    ensures forall a :: a in Reduce(r, frame).agents ==> RunTableOk(Reduce(r, frame).agents[a])
  {
    if frame.SnapshotFrame? {
      InstallEffect(r, frame.agents);
    } else if frame.DeltaFrame? && OutcomeOf(r, frame).Ok? {
      hide RunTableOk;
      var held := r.agents[frame.delta.agentId];
      ApplyChangeKeepsRunTable(held, frame.delta.change);
      RunTableIgnoresCounters(ApplyChange(held, frame.delta.change), frame.delta.revision, frame.sequence);
    } else if UpdateIn(frame).Some? && OutcomeOf(r, frame).Ok? {
      var update := UpdateIn(frame).value;
      RunTableIgnoresCounters(r.agents[update.Agent()], r.agents[update.Agent()].revision, update.sequence);
    }
  }

  lemma RunTableIgnoresCounters(s: AgentSnapshot, revision: u64, sequence: u64)
    ensures RunTableOk(s) ==> RunTableOk(s.(revision := revision, eventSequence := sequence))
  {
  }
}
