/**
 * From the actor to the screen: what a client reports was asked of the agent's actor in that run, a
 * client in step shows the next change as soon as it arrives, and one that is too slow is told.
 */
module Delivery {
  import opened Prelude
  import opened ControlState
  import opened ActorHistory
  import opened VisibleState
  import opened Reducer
  import opened ReplicationSystem
  import opened Reconvergence
  import opened AgentShare
  import opened SubscriptionInFlight
  import SubscriptionExamples

  // ----- every update on record was asked for -----

  /** The event asks the agent's actor for exactly what the update carries. */
  predicate AsksFor(e: ReplicationSystem.Event, agentId: AgentId, update: AgentUpdate) {
    match update
    case Delta(_, delta) => e == ActorChanges(agentId, delta.change)
    case Event(_, _, payload) => e == ActorPublishes(agentId, payload)
  }

  /** The i-th event asked for this update, when the agent's log had k entries. */
  predicate AskedAt(
    s: System, events: seq<ReplicationSystem.Event>, i: nat, agentId: AgentId, k: nat, update: AgentUpdate)
    requires Inv(s) && i < |events|
  {
    var before := Run(s, events[..i]);
    && agentId in before.actors && |before.actors[agentId].history.log| == k
    && AsksFor(events[i], agentId, update)
  }

  lemma RecordedStepAsks(s: System, e: ReplicationSystem.Event, agentId: AgentId, update: AgentUpdate)
    requires forall a :: a in s.actors ==> Genuine(s.actors[a].history)
    requires agentId in s.actors && agentId in Step(s, e).actors
    requires Step(s, e).actors[agentId].history == Extend(s.actors[agentId].history, update)
    ensures AsksFor(e, agentId, update)
  {
    hide Genuine, Current, Reduce, Resubscriptions, Cursor, Emit, TakeUpdate, Reply, ReadSnapshot, SendGap, Write;
    var h := s.actors[agentId].history;
    assert |Extend(h, update).log| == |h.log| + 1 && Extend(h, update).log[|h.log|] == update;
    if e.ServerTakesRequest? {
      if s.link.inbox != [] && s.link.emission.None? {
        RequestFrame(s);
      }
    }
    hide TakeRequest;
  }

  /** Every update in an agent's log was asked of its actor by exactly the event of the run that recorded it. */
  lemma {:induction false} EveryUpdateWasAsked(
    s: System, events: seq<ReplicationSystem.Event>, agentId: AgentId, k: nat)
    requires IsInitial(s) && Inv(s)
    requires agentId in Run(s, events).actors && k < |Run(s, events).actors[agentId].history.log|
    ensures exists i :: 0 <= i < |events|
              && AskedAt(s, events, i, agentId, k, Run(s, events).actors[agentId].history.log[k])
    decreases |events|
  {
    hide IsNext, Step, Inv, AsksFor;
    LastEventGrows(s, events, agentId);
    var last := |events| - 1;
    var earlier := events[..last];
    var before := Run(s, earlier).actors[agentId].history;
    var after := Run(s, events).actors[agentId].history;
    if k < |before.log| {
      EveryUpdateWasAsked(s, earlier, agentId, k);
      var i :| 0 <= i < |earlier| && AskedAt(s, earlier, i, agentId, k, before.log[k]);
      assert earlier[..i] == events[..i];
      assert AskedAt(s, events, i, agentId, k, after.log[k]);
    } else {
      var update :| IsNext(Current(before), update) && after == Extend(before, update);
      InvMeansGenuine(Run(s, earlier));
      RecordedStepAsks(Run(s, earlier), events[last], agentId, update);
      assert AskedAt(s, events, last, agentId, k, after.log[k]);
    }
  }

  // ----- what a client reports -----

  /** The effect reports this very update, in the form its kind prescribes. */
  predicate Reports(effect: ReplicationEffect, update: AgentUpdate) {
    match effect
    case StateChanged(agentId) => update.Delta? && update.delta.agentId == agentId
    case EventReceived(agentId, sequence, payload) => update == Event(agentId, sequence, payload) && payload.OtherMessage?
    case Interaction(agentId, sequence, request) => update == Event(agentId, sequence, ExtensionUi(request))
    case NeedsResync(_) => false
  }

  /**
   * An accepted update is reported once and as what it is: a UI request, and only that, as an
   * interaction with its own request, every other event with its own payload, a change as a change.
   */
  lemma UpdateIsReported(r: Replica, update: AgentUpdate)
    ensures OutcomeOf(r, FrameOf(update)).Ok? <==> Rejection(r, update).None?
    ensures OutcomeOf(r, FrameOf(update)).Ok? ==>
              |OutcomeOf(r, FrameOf(update)).value| == 1 && Reports(OutcomeOf(r, FrameOf(update)).value[0], update)
    ensures FrameOf(update).InteractionRequest? <==> update.Event? && update.event.ExtensionUi?
  {
    hide Rejection;
  }

  /** A snapshot is reported agent by agent, in the order of the frame; a gap as the agent that needs a new one. */
  lemma OtherFramesAreReported(r: Replica, frame: ServerFrame)
    requires UpdateIn(frame).None?
    ensures OutcomeOf(r, frame).Ok?
    ensures var effects := OutcomeOf(r, frame).value;
            && (frame.SnapshotFrame? ==>
                  |effects| == |frame.agents|
                  && forall i :: 0 <= i < |effects| ==>
                       effects[i].StateChanged? && effects[i].agentId == frame.agents[i].agentId)
            && (frame.ReplayGap? ==> effects == [NeedsResync(frame.agentId)])
            && (frame.OtherFrame? ==> effects == [])
  {
  }

  /** Why an update is rejected, exactly, by what the client holds. */
  lemma RejectionSaysWhy(r: Replica, update: AgentUpdate)
    requires Filed(r)
    ensures var a := update.Agent();
            var why := Rejection(r, update);
            && (why == Some(MissingSnapshot(a)) <==> a !in r.agents)
            && (why == Some(ResyncPending(a)) <==> a in r.agents && a in r.resyncRequired)
            && (a in r.agents && a !in r.resyncRequired ==>
                  var held := r.agents[a].eventSequence;
                  && (why == Some(ReplicaSequenceExhausted) <==> held == U64_MAX)
                  && (why == Some(NonContiguousEventSequence(held, update.sequence)) <==>
                        held < U64_MAX && update.sequence != held + 1)
                  && (held < U64_MAX && update.sequence == held + 1 ==>
                        (why.None? <==> ApplyUpdate(r.agents[a], update).Ok?)
                        && (why.Some? ==> why.value.DeltaRefused?)))
  {
    hide ApplyChange;
  }

  /** The effect is about an update of this agent that was recorded as the k-th of its log, and asked for in the run. */
  predicate WasAsked(
    laneCapacity: nat, events: seq<ReplicationSystem.Event>, i: nat, effect: ReplicationEffect, update: AgentUpdate)
    requires i < |events|
  {
    var actors := Run(Fresh(laneCapacity), events).actors;
    && Reports(effect, update)
    && update.Agent() in actors
    && var h := actors[update.Agent()].history;
       && h.base.eventSequence < update.sequence
       && AskedAt(Fresh(laneCapacity), events, i, update.Agent(), update.sequence - h.base.eventSequence - 1, update)
  }

  /**
   * End to end: whatever a client reports when it accepts an update, was asked of that agent's actor in
   * this run, by the event that recorded it under the reported sequence number: the same payload for
   * an event, the same request for an interaction.
   */
  lemma ReportedEffectWasAsked(laneCapacity: nat, events: seq<ReplicationSystem.Event>, effect: ReplicationEffect)
    requires Run(Fresh(laneCapacity), events).link.wire != []
    requires var s := Run(Fresh(laneCapacity), events);
             && UpdateIn(s.link.wire[0]).Some? && OutcomeOf(s.client, s.link.wire[0]).Ok?
             && effect in OutcomeOf(s.client, s.link.wire[0]).value
    ensures exists i, update :: 0 <= i < |events| && WasAsked(laneCapacity, events, i, effect, update)
  {
    hide Inv, Step, Run, OutcomeOf, FrameOf, Reports, AskedAt;
    var s := Run(Fresh(laneCapacity), events);
    WireIsGenuine(s);
    var update := UpdateIn(s.link.wire[0]).value;
    UpdateIsReported(s.client, update);
    var k := update.sequence - s.actors[update.Agent()].history.base.eventSequence - 1;
    EveryUpdateWasAsked(Fresh(laneCapacity), events, update.Agent(), k);
    var i :| 0 <= i < |events| && AskedAt(Fresh(laneCapacity), events, i, update.Agent(), k, update);
    assert WasAsked(laneCapacity, events, i, effect, update);
  }

  lemma WireIsGenuine(s: System)
    requires Inv(s) && s.link.wire != [] && UpdateIn(s.link.wire[0]).Some?
    ensures var update := UpdateIn(s.link.wire[0]).value;
            && s.link.wire[0] == FrameOf(update) && update.Agent() in s.actors
            && var h := s.actors[update.Agent()].history;
               && h.base.eventSequence < update.sequence <= h.base.eventSequence + |h.log|
               && h.log[update.sequence - h.base.eventSequence - 1] == update
  {
    hide ActorsOk, FeedsOk, ClientOk, EmissionOk;
    assert GenuineFrame(s.actors, s.link.wire[0]);
  }

  // ----- a live update arrives -----

  /** The subscription's loop runs, its queue is drained, and the client holds what the actor has. */
  predicate Following(s: System, agentId: AgentId, id: nat) {
    && agentId in s.actors && id in s.link.feeds && s.laneCapacity > 0
    && s.link.feeds[id].agentId == agentId && s.link.feeds[id].registered && s.link.feeds[id].live
    && s.link.feeds[id].gap == NoGap && s.link.feeds[id].queue == []
    && s.link.control == [] && s.link.response == [] && s.link.state == [] && s.link.wire == []
    && ShareOf(s.client, agentId) == InStep(s.actors[agentId].history, |s.actors[agentId].history.log|)
  }

  /** After the actor recorded an update, before the loop has taken it. */
  predicate Queued(s: System, agentId: AgentId, id: nat, h: History, update: AgentUpdate) {
    && agentId in s.actors && id in s.link.feeds && s.laneCapacity > 0
    && s.actors[agentId].history == Extend(h, update)
    && s.link.feeds[id].live && s.link.feeds[id].gap == NoGap && !s.link.feeds[id].overflowed
    && s.link.feeds[id].queue == [update]
    && s.link.control == [] && s.link.response == [] && s.link.state == [] && s.link.wire == []
  }

  lemma RecordingQueues(s: System, agentId: AgentId, id: nat, update: AgentUpdate)
    requires Inv(s) && Following(s, agentId, id) && update.Agent() == agentId
    ensures var after := Recorded(s, agentId, update);
            && Queued(after, agentId, id, s.actors[agentId].history, update) && after.client == s.client
  {
    hide ActorOk, LinkOk, ClientOk, At, ShareOf;
    FeedOfInv(s, id);
    assert ActorOk(agentId, s.actors[agentId]);
    CapacityPositive(agentId, s.actors[agentId]);
    assert [] + [update] == [update];
  }

  lemma CapacityPositive(agentId: AgentId, actor: Actor)
    requires ActorOk(agentId, actor)
    ensures actor.queueCapacity > 0 && Genuine(actor.history) && actor.history.base.agentId == agentId
  {
  }

  lemma Delivers(s: System, agentId: AgentId, id: nat, h: History, update: AgentUpdate)
    requires Inv(s) && Queued(s, agentId, id, h, update)
    requires forall a :: a in s.actors ==> Genuine(s.actors[a].history)
    ensures var taken := Step(s, FeedTakes(id, false));
            && taken.actors == s.actors && taken.client == s.client && taken.laneCapacity == s.laneCapacity
            && taken.link.control == [] && taken.link.response == [] && taken.link.wire == []
            && taken.link.state == [FrameOf(update)]
  {
    hide Genuine, Inv, FrameOf;
  }

  lemma Writes(s: System, frame: ServerFrame)
    requires s.link.control == [] && s.link.response == [] && s.link.state == [frame] && s.link.wire == []
    requires forall a :: a in s.actors ==> Genuine(s.actors[a].history)
    ensures var written := Step(s, WriterSends);
            && written.actors == s.actors && written.client == s.client && written.link.wire == [frame]
  {
    hide Genuine;
  }

  lemma ClientTakes(s: System, frame: ServerFrame)
    requires s.link.wire == [frame] && forall a :: a in s.actors ==> Genuine(s.actors[a].history)
    ensures Step(s, ClientTakesFrame).client == Reduce(s.client, frame) && Step(s, ClientTakesFrame).actors == s.actors
  {
    hide Genuine, Reduce, Resubscriptions;
  }

  /** Three more steps bring the queued update to the client. */
  lemma QueuedReaches(s: System, agentId: AgentId, id: nat, h: History, update: AgentUpdate)
    requires Inv(s) && Queued(s, agentId, id, h, update)
    ensures var after := Run(s, [FeedTakes(id, false), WriterSends, ClientTakesFrame]);
            after.client == Reduce(s.client, FrameOf(update)) && after.actors == s.actors
  {
    hide Inv, Step, Run, Queued, FrameOf, Reduce, Genuine;
    InvMeansGenuine(s);
    Delivers(s, agentId, id, h, update);
    var s1 := Step(s, FeedTakes(id, false));
    StepKeepsInv(s, FeedTakes(id, false));
    Writes(s1, FrameOf(update));
    var s2 := Step(s1, WriterSends);
    StepKeepsInv(s1, WriterSends);
    ClientTakes(s2, FrameOf(update));
    ThreeSteps(s, FeedTakes(id, false), WriterSends, ClientTakesFrame);
  }

  lemma ThreeSteps(s: System, e0: ReplicationSystem.Event, e1: ReplicationSystem.Event, e2: ReplicationSystem.Event)
    requires Inv(s)
    ensures forall a :: a in s.actors ==> Genuine(s.actors[a].history)
    ensures Inv(Step(s, e0)) && forall a :: a in Step(s, e0).actors ==> Genuine(Step(s, e0).actors[a].history)
    ensures var s1 := Step(s, e0);
            Inv(Step(s1, e1)) && forall a :: a in Step(s1, e1).actors ==> Genuine(Step(s1, e1).actors[a].history)
    ensures Run(s, [e0, e1, e2]) == Step(Step(Step(s, e0), e1), e2)
  {
    hide Inv, Step, Run, Genuine;
    InvMeansGenuine(s);
    StepKeepsInv(s, e0);
    var s1 := Step(s, e0);
    InvMeansGenuine(s1);
    StepKeepsInv(s1, e1);
    var s2 := Step(s1, e1);
    InvMeansGenuine(s2);
    RunOne(s, e0);
    RunOne(s1, e1);
    RunOne(s2, e2);
    RunAppend(s, [e0], [e1]);
    assert [e0] + [e1] == [e0, e1];
    RunAppend(s, [e0, e1], [e2]);
    assert [e0, e1] + [e2] == [e0, e1, e2];
  }

  /** The client is unflagged and shows this value. */
  predicate ClientShows(client: Replica, agentId: AgentId, field: Field, value: FieldValue) {
    agentId in client.agents && agentId !in client.resyncRequired && Shown(client.agents[agentId], field) == value
  }

  lemma InStepAfter(s: System, agentId: AgentId, h: History, update: AgentUpdate, client: Replica)
    requires Inv(s) && agentId in s.actors && s.actors[agentId].history == h
    requires IsNext(Current(h), update) && ShareOf(client, agentId) == InStep(h, |h.log|)
    ensures ShareOf(Reduce(client, FrameOf(update)), agentId) == InStep(Extend(h, update), |h.log| + 1)
    ensures At(Extend(h, update), |h.log| + 1) == Advance(Current(h), update)
  {
    hide Inv, IsNext, Genuine, Reduce, FrameOf, Advance;
    HistoryBelongs(s, agentId);
    ExtendIsGenuine(h, update);
    CurrentIsPast(h);
    var longer := Extend(h, update);
    assert At(longer, |h.log|) == At(h, |h.log|);
    assert longer.log[|h.log|] == update;
    CountersCount(longer, |h.log|);
    UpdateDecides(longer, |h.log|, client);
  }

  /**
   * From every state in which a client follows an agent: a change to a value that is not shown yet,
   * with room in the counters, is on the client's screen three steps after the actor handled it.
   */
  lemma ChangeReachesTheClient(s: System, agentId: AgentId, id: nat, change: AgentStateChange)
    requires Inv(s) && Following(s, agentId, id) && Announced(change).Some?
    requires var current := Current(s.actors[agentId].history);
             && Shown(current, FieldOf(change)) != Announced(change).value
             && current.revision < U64_MAX && current.eventSequence < U64_MAX
    ensures var after := Run(s, [ActorChanges(agentId, change), FeedTakes(id, false), WriterSends, ClientTakesFrame]);
            && ClientShows(after.client, agentId, FieldOf(change), Announced(change).value)
            && agentId in after.actors && after.client.agents[agentId] == Current(after.actors[agentId].history)
            && |after.actors[agentId].history.log| == |s.actors[agentId].history.log| + 1
  {
    hide Inv, Run, Following, Reduce, FrameOf, IsNext, Genuine, Shown, Announced, Queued;
    FollowingMeans(s, agentId, id);
    var h := s.actors[agentId].history;
    HistoryBelongs(s, agentId);
    CurrentIsPast(h);
    RecordedExactlyWhenNew(Current(h), change);
    RecordedUpdatesAreNext(Current(h), change, OtherMessage(""));
    var update := DeltaFor(Current(h), change).value.value;
    InvMeansGenuine(s);
    ChangeStep(s, agentId, change);
    RecordingQueues(s, agentId, id, update);
    InStepAfter(s, agentId, h, update, s.client);
    AdvanceShows(Current(h), update);
    StepKeepsInv(s, ActorChanges(agentId, change));
    QueuedReaches(Step(s, ActorChanges(agentId, change)), agentId, id, h, update);
    FirstOfFour(s, ActorChanges(agentId, change), id);
    hide Step;
    ShownInStep(Run(Step(s, ActorChanges(agentId, change)), [FeedTakes(id, false), WriterSends, ClientTakesFrame]).client,
      agentId, Extend(h, update));
  }

  lemma FollowingMeans(s: System, agentId: AgentId, id: nat)
    requires Following(s, agentId, id)
    ensures agentId in s.actors
    ensures ShareOf(s.client, agentId) == InStep(s.actors[agentId].history, |s.actors[agentId].history.log|)
  {
    hide ShareOf, InStep;
  }

  lemma ShownInStep(client: Replica, agentId: AgentId, h: History)
    requires ShareOf(client, agentId) == InStep(h, |h.log|)
    ensures agentId in client.agents && agentId !in client.resyncRequired && client.agents[agentId] == Current(h)
  {
    hide At;
  }

  lemma ChangeStep(s: System, agentId: AgentId, change: AgentStateChange)
    requires agentId in s.actors && forall a :: a in s.actors ==> Genuine(s.actors[a].history)
    requires var d := DeltaFor(Current(s.actors[agentId].history), change); d.Ok? && d.value.Some?
    ensures Step(s, ActorChanges(agentId, change))
            == Recorded(s, agentId, DeltaFor(Current(s.actors[agentId].history), change).value.value)
  {
    hide Genuine, DeltaFor, Current, Recorded;
  }

  lemma FirstOfFour(s: System, e: ReplicationSystem.Event, id: nat)
    requires Inv(s) && forall a :: a in s.actors ==> Genuine(s.actors[a].history)
    requires Inv(Step(s, e))
    ensures Run(s, [e, FeedTakes(id, false), WriterSends, ClientTakesFrame])
            == Run(Step(s, e), [FeedTakes(id, false), WriterSends, ClientTakesFrame])
  {
    hide Inv, Step, Run, Genuine;
    RunOne(s, e);
    RunAppend(s, [e], [FeedTakes(id, false), WriterSends, ClientTakesFrame]);
    assert [e] + [FeedTakes(id, false), WriterSends, ClientTakesFrame]
        == [e, FeedTakes(id, false), WriterSends, ClientTakesFrame];
  }

  /** And so is every event published with room in the sequence: the client takes exactly the frame that carries it. */
  lemma EventReachesTheClient(s: System, agentId: AgentId, id: nat, payload: ServerMessage)
    requires Inv(s) && Following(s, agentId, id)
    requires Current(s.actors[agentId].history).eventSequence < U64_MAX
    ensures var sequence := Current(s.actors[agentId].history).eventSequence + 1;
            var update := Event(agentId, sequence, payload);
            var after := Run(s, [ActorPublishes(agentId, payload), FeedTakes(id, false), WriterSends, ClientTakesFrame]);
            && after.client == Reduce(s.client, FrameOf(update)) && OutcomeOf(s.client, FrameOf(update)).Ok?
            && agentId in after.actors && agentId in after.client.agents && agentId !in after.client.resyncRequired
            && after.client.agents[agentId] == Current(after.actors[agentId].history)
            && after.client.agents[agentId].eventSequence == sequence
  {
    hide Inv, Run, Following, Reduce, FrameOf, IsNext, Genuine, Queued;
    FollowingMeans(s, agentId, id);
    var h := s.actors[agentId].history;
    HistoryBelongs(s, agentId);
    CurrentIsPast(h);
    RecordedUpdatesAreNext(Current(h), SessionCleared, payload);
    var update := Event(agentId, Current(h).eventSequence + 1, payload);
    InvMeansGenuine(s);
    EventStep(s, agentId, payload, update);
    RecordingQueues(s, agentId, id, update);
    InStepAfter(s, agentId, h, update, s.client);
    StepKeepsInv(s, ActorPublishes(agentId, payload));
    QueuedReaches(Step(s, ActorPublishes(agentId, payload)), agentId, id, h, update);
    FirstOfFour(s, ActorPublishes(agentId, payload), id);
    hide Step;
    ShownInStep(Run(Step(s, ActorPublishes(agentId, payload)), [FeedTakes(id, false), WriterSends, ClientTakesFrame]).client,
      agentId, Extend(h, update));
    NextIsAccepted(Current(h), update);
    UnflaggedIsAccepted(s.client, update);
  }

  lemma EventStep(s: System, agentId: AgentId, payload: ServerMessage, update: AgentUpdate)
    requires agentId in s.actors && forall a :: a in s.actors ==> Genuine(s.actors[a].history)
    requires Current(s.actors[agentId].history).agentId == agentId
    requires Current(s.actors[agentId].history).eventSequence < U64_MAX
    requires update == Event(agentId, Current(s.actors[agentId].history).eventSequence + 1, payload)
    ensures EventFor(Current(s.actors[agentId].history), payload) == Ok(update)
    ensures Step(s, ActorPublishes(agentId, payload)) == Recorded(s, agentId, update)
  {
    hide Genuine, Current, Recorded;
  }

  /** A frame that leaves its agent unflagged was accepted. */
  lemma UnflaggedIsAccepted(client: Replica, update: AgentUpdate)
    requires update.Agent() !in Reduce(client, FrameOf(update)).resyncRequired
    ensures OutcomeOf(client, FrameOf(update)).Ok?
  {
    FrameCarriesUpdate(update);
    hide Rejection, Advance;
  }

  /** Such a state is reached: a client that subscribed once follows its agent. */
  lemma ClientCanFollow(agentId: AgentId)
    ensures Following(Run(Fresh(1), SubscriptionExamples.OffAndOn(agentId)[..7]), agentId, 0)
  {
    SubscriptionExamples.RunsToLive(agentId);
    hide Run, Step, Inv;
    var s := SubscriptionExamples.Live(agentId, SubscriptionExamples.ActorBefore(agentId),
      SubscriptionExamples.NewFeed(agentId), [], [], SubscriptionExamples.Knows(agentId));
    assert ShareOf(s.client, agentId) == InStep(s.actors[agentId].history, 0);
  }

  // ----- what brings a client back -----

  /** The client asks for an agent again, from scratch, exactly when a frame of that agent leaves it flagged. */
  lemma RepairIsRequested(s: System)
    requires s.link.wire != [] && forall a :: a in s.actors ==> Genuine(s.actors[a].history)
    ensures var frame := s.link.wire[0];
            var after := Step(s, ClientTakesFrame);
            && after.client == Reduce(s.client, frame) && after.link.wire == s.link.wire[1..]
            && (UpdateIn(frame).Some? && UpdateIn(frame).value.Agent() in after.client.resyncRequired ==>
                  after.link.inbox == s.link.inbox + [Subscribe(UpdateIn(frame).value.Agent(), None)])
            && (frame.ReplayGap? ==>
                  frame.agentId in after.client.resyncRequired
                  && after.link.inbox == s.link.inbox + [Subscribe(frame.agentId, None)])
            && (frame.SnapshotFrame? || frame.OtherFrame?
                || (UpdateIn(frame).Some? && UpdateIn(frame).value.Agent() !in after.client.resyncRequired) ==>
                  after.link.inbox == s.link.inbox)
  {
    hide Genuine, ApplyDelta, Advance;
  }

  /**
   * What a request for an agent is answered with. Without a cursor: the actor's snapshot. With one: the
   * updates after it, in their order, or, where they cannot be replayed, first the news of the gap on
   * the control lane and then the snapshot.
   */
  lemma RequestIsAnsweredWith(s: System, agentId: AgentId, cursor: Option<SubscriptionCursor>)
    requires s.link.inbox != [] && s.link.inbox[0] == Subscribe(agentId, cursor) && s.link.emission.None?
    requires agentId in s.actors && forall a :: a in s.actors ==> Genuine(s.actors[a].history)
    ensures var after := Step(s, ServerTakesRequest);
            var h := s.actors[agentId].history;
            var current := Current(h);
            var start := StartFor(h, s.actors[agentId].replayCapacity, cursor);
            && after.link.emission.Some?
            && after.link.emission.value.feed in after.link.feeds
            && after.link.feeds[after.link.emission.value.feed]
               == Feed(agentId, |h.log|, [], true, false, false, false, NoGap)
            && var sends := after.link.emission.value.remaining;
               && (cursor.None? ==> sends == [LaneSend(StateLane, SnapshotFrame([current]))])
               && (start.Replay? ==>
                     |sends| == |start.updates|
                     && forall i :: 0 <= i < |sends| ==> sends[i] == LaneSend(StateLane, FrameOf(start.updates[i])))
               && (start.ResyncRequired? ==>
                     sends == [LaneSend(ControlLane, ReplayGap(current.agentId, current.revision, current.eventSequence,
                                                               NonContiguousCursor)),
                               LaneSend(StateLane, SnapshotFrame([current]))])
               && (start.Snapshot? <==> cursor.None?)
  {
    hide Genuine, Current;
  }
}
