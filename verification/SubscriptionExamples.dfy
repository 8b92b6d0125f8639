/** Two runs from the very start: an update that reaches its client twice, and a replay that is cut. */
module SubscriptionExamples {
  import opened Prelude
  import opened ControlState
  import opened ActorHistory
  import opened Reducer
  import opened ReplicationSystem
  import opened Reconvergence
  import opened AgentShare
  import opened SubscriptionInFlight
  import opened SubscriptionRuns

  // ----- an answer that does not fit -----

  /** The user turns an agent off and on again while an update of it is on its way. */
  function OffAndOn(agentId: AgentId): seq<Event> {
    [Launch(Initial(agentId), 2, 1), ClientSubscribes(agentId, false), ServerTakesRequest, ServerEmits, ServerEmits,
     WriterSends, ClientTakesFrame, ActorPublishes(agentId, OtherMessage("")), FeedTakes(0, false),
     ClientUnsubscribes(agentId), ClientSubscribes(agentId, true), ServerTakesRequest]
  }

  function Published(agentId: AgentId): AgentUpdate {
    Event(agentId, 1, OtherMessage(""))
  }

  // The moments of that run.

  function ActorBefore(agentId: AgentId): map<AgentId, Actor> {
    map[agentId := Actor(History(Initial(agentId), []), 2, 1)]
  }

  function ActorAfter(agentId: AgentId): map<AgentId, Actor> {
    map[agentId := Actor(History(Initial(agentId), [Published(agentId)]), 2, 1)]
  }

  const KNOWS_NOTHING := Replica(map[], {})

  function Knows(agentId: AgentId): Replica {
    Replica(map[agentId := Initial(agentId)], {})
  }

  function NewFeed(agentId: AgentId): Feed {
    Feed(agentId, 0, [], true, false, false, false, NoGap)
  }

  function Launched(agentId: AgentId): System {
    System(ActorBefore(agentId), 1, NO_LINK, KNOWS_NOTHING)
  }

  function Asked(agentId: AgentId): System {
    System(ActorBefore(agentId), 1, NO_LINK.(inbox := [Subscribe(agentId, None)]), KNOWS_NOTHING)
  }

  /** The start is being emitted; `rest` and `lane` say how far. */
  function Emitting(agentId: AgentId, rest: seq<LaneSend>, lane: seq<ServerFrame>): System {
    System(ActorBefore(agentId), 1,
      NO_LINK.(feeds := map[0 := NewFeed(agentId)], nextFeed := 1, emission := Some(Emission(0, rest)), state := lane),
      KNOWS_NOTHING)
  }

  /** The subscription's loop runs. */
  function Live(
    agentId: AgentId, actors: map<AgentId, Actor>, feed: Feed, lane: seq<ServerFrame>, wire: seq<ServerFrame>,
    client: Replica): System
  {
    System(actors, 1,
      NO_LINK.(feeds := map[0 := feed.(live := true)], nextFeed := 1, subscriptions := map[agentId := 0],
               state := lane, wire := wire),
      client)
  }

  /** The update is on the state lane; the user's two requests are in front of the server. */
  function Toggled(agentId: AgentId, inbox: seq<Request>): System {
    var s := Live(agentId, ActorAfter(agentId), NewFeed(agentId).(position := 1), [FrameOf(Published(agentId))], [], Knows(agentId));
    s.(link := s.link.(inbox := inbox))
  }

  function Resume(agentId: AgentId): Request {
    Subscribe(agentId, Some(CursorOf(Initial(agentId))))
  }

  /** The old queue is aborted; the server is about to answer the second subscription. */
  function Switched(agentId: AgentId): System {
    var s := Toggled(agentId, [Resume(agentId)]);
    s.(link := s.link.(subscriptions := map[], feeds := map[0 := NewFeed(agentId).(position := 1, live := true, aborted := true)]))
  }

  lemma BothGenuine(agentId: AgentId)
    ensures forall a :: a in ActorBefore(agentId) ==> Genuine(ActorBefore(agentId)[a].history)
    ensures forall a :: a in ActorAfter(agentId) ==> Genuine(ActorAfter(agentId)[a].history)
  {
    var h := History(Initial(agentId), [Published(agentId)]);
    assert NextAt(h, 0);
  }

  lemma LaunchesAndAsks(agentId: AgentId)
    requires forall a :: a in ActorBefore(agentId) ==> Genuine(ActorBefore(agentId)[a].history)
    ensures Step(Fresh(1), Launch(Initial(agentId), 2, 1)) == Launched(agentId)
    ensures Step(Launched(agentId), ClientSubscribes(agentId, false)) == Asked(agentId)
  {
    hide Genuine;
  }

  lemma IsAnswered(agentId: AgentId)
    requires forall a :: a in ActorBefore(agentId) ==> Genuine(ActorBefore(agentId)[a].history)
    ensures Step(Asked(agentId), ServerTakesRequest)
            == Emitting(agentId, [LaneSend(StateLane, SnapshotFrame([Initial(agentId)]))], [])
  {
    hide Genuine;
    var s := Asked(agentId);
    assert s.link.inbox[1..] == [];
    assert s.link.subscriptions - {agentId} == map[];
    assert Step(s, ServerTakesRequest).link.feeds == map[0 := NewFeed(agentId)];
  }

  lemma IsEmitted(agentId: AgentId)
    requires forall a :: a in ActorBefore(agentId) ==> Genuine(ActorBefore(agentId)[a].history)
    ensures var snapshot := SnapshotFrame([Initial(agentId)]);
            && Step(Emitting(agentId, [LaneSend(StateLane, snapshot)], []), ServerEmits) == Emitting(agentId, [], [snapshot])
            && Step(Emitting(agentId, [], [snapshot]), ServerEmits)
               == Live(agentId, ActorBefore(agentId), NewFeed(agentId), [snapshot], [], KNOWS_NOTHING)
  {
    hide Genuine;
    var send := LaneSend(StateLane, SnapshotFrame([Initial(agentId)]));
    assert [send][1..] == [];
    var last := Emitting(agentId, [], [send.frame]);
    assert Step(last, ServerEmits).link.feeds == map[0 := NewFeed(agentId).(live := true)];
  }

  lemma IsDelivered(agentId: AgentId)
    requires forall a :: a in ActorBefore(agentId) ==> Genuine(ActorBefore(agentId)[a].history)
    ensures var snapshot := SnapshotFrame([Initial(agentId)]);
            var feed := NewFeed(agentId);
            && Step(Live(agentId, ActorBefore(agentId), feed, [snapshot], [], KNOWS_NOTHING), WriterSends)
               == Live(agentId, ActorBefore(agentId), feed, [], [snapshot], KNOWS_NOTHING)
            && Step(Live(agentId, ActorBefore(agentId), feed, [], [snapshot], KNOWS_NOTHING), ClientTakesFrame)
               == Live(agentId, ActorBefore(agentId), feed, [], [], Knows(agentId))
  {
    hide Genuine;
    var snapshot := SnapshotFrame([Initial(agentId)]);
    assert [snapshot][1..] == [];
    assert [Initial(agentId)][..0] == [];
    assert Install(KNOWS_NOTHING, [Initial(agentId)]) == Knows(agentId);
  }

  lemma IsPublished(agentId: AgentId)
    requires forall a :: a in ActorBefore(agentId) ==> Genuine(ActorBefore(agentId)[a].history)
    ensures Step(Live(agentId, ActorBefore(agentId), NewFeed(agentId), [], [], Knows(agentId)),
                 ActorPublishes(agentId, OtherMessage("")))
            == Live(agentId, ActorAfter(agentId), NewFeed(agentId).(queue := [Published(agentId)]), [], [], Knows(agentId))
  {
    hide Genuine;
    var s := Live(agentId, ActorBefore(agentId), NewFeed(agentId), [], [], Knows(agentId));
    var after := Step(s, ActorPublishes(agentId, OtherMessage("")));
    var h := History(Initial(agentId), []);
    assert EventFor(Current(h), OtherMessage("")) == Ok(Published(agentId));
    assert Extend(h, Published(agentId)) == History(Initial(agentId), [Published(agentId)]);
    assert after.actors == ActorAfter(agentId);
    assert after.link.feeds == map[0 := NewFeed(agentId).(live := true, queue := [Published(agentId)])];
  }

  lemma IsPushed(agentId: AgentId)
    requires forall a :: a in ActorAfter(agentId) ==> Genuine(ActorAfter(agentId)[a].history)
    ensures Step(Live(agentId, ActorAfter(agentId), NewFeed(agentId).(queue := [Published(agentId)]), [], [], Knows(agentId)),
                 FeedTakes(0, false))
            == Toggled(agentId, [])
  {
    hide Genuine;
    assert [Published(agentId)][1..] == [];
    var s := Live(agentId, ActorAfter(agentId), NewFeed(agentId).(queue := [Published(agentId)]), [], [], Knows(agentId));
    assert Step(s, FeedTakes(0, false)).link.feeds == map[0 := NewFeed(agentId).(live := true, position := 1)];
  }

  lemma IsToggled(agentId: AgentId)
    requires forall a :: a in ActorAfter(agentId) ==> Genuine(ActorAfter(agentId)[a].history)
    ensures Step(Toggled(agentId, []), ClientUnsubscribes(agentId)) == Toggled(agentId, [Unsubscribe(agentId)])
    ensures Step(Toggled(agentId, [Unsubscribe(agentId)]), ClientSubscribes(agentId, true))
            == Toggled(agentId, [Unsubscribe(agentId), Resume(agentId)])
  {
    hide Genuine;
    assert [] + [Unsubscribe(agentId)] == [Unsubscribe(agentId)];
    assert [Unsubscribe(agentId)] + [Resume(agentId)] == [Unsubscribe(agentId), Resume(agentId)];
  }

  lemma IsSwitched(agentId: AgentId)
    requires forall a :: a in ActorAfter(agentId) ==> Genuine(ActorAfter(agentId)[a].history)
    ensures Step(Toggled(agentId, [Unsubscribe(agentId), Resume(agentId)]), ServerTakesRequest) == Switched(agentId)
  {
    hide Genuine;
    var s := Toggled(agentId, [Unsubscribe(agentId), Resume(agentId)]);
    assert s.link.inbox[1..] == [Resume(agentId)];
    assert s.link.subscriptions - {agentId} == map[];
    assert Step(s, ServerTakesRequest).link.feeds == Switched(agentId).link.feeds;
  }

  /** One more event of a run. */
  lemma OneEventOn(events: seq<Event>, k: nat, s: System, after: System)
    requires k < |events| && Run(Fresh(1), events[..k]) == s
    requires forall a :: a in s.actors ==> Genuine(s.actors[a].history)
    requires Step(s, events[k]) == after
    ensures Run(Fresh(1), events[..k + 1]) == after
  {
    hide Step, Inv;
    assert events[..k + 1][..|events[..k + 1]| - 1] == events[..k];
  }

  lemma RunsToEmitting(agentId: AgentId)
    ensures Run(Fresh(1), OffAndOn(agentId)[..3])
            == Emitting(agentId, [LaneSend(StateLane, SnapshotFrame([Initial(agentId)]))], [])
  {
    hide Run, Step, Genuine;
    BothGenuine(agentId);
    NothingYet(Fresh(1), NOTHING, agentId);
    assert OffAndOn(agentId)[..0] == [];
    LaunchesAndAsks(agentId);
    OneEventOn(OffAndOn(agentId), 0, Fresh(1), Launched(agentId));
    OneEventOn(OffAndOn(agentId), 1, Launched(agentId), Asked(agentId));
    IsAnswered(agentId);
    OneEventOn(OffAndOn(agentId), 2, Asked(agentId), Emitting(agentId, [LaneSend(StateLane, SnapshotFrame([Initial(agentId)]))], []));
  }

  lemma RunsToLive(agentId: AgentId)
    ensures Run(Fresh(1), OffAndOn(agentId)[..7]) == Live(agentId, ActorBefore(agentId), NewFeed(agentId), [], [], Knows(agentId))
  {
    hide Run, Step, Genuine, NewFeed, Knows, ActorBefore;
    BothGenuine(agentId);
    var snapshot := SnapshotFrame([Initial(agentId)]);
    var feed := NewFeed(agentId);
    RunsToEmitting(agentId);
    IsEmitted(agentId);
    OneEventOn(OffAndOn(agentId), 3, Emitting(agentId, [LaneSend(StateLane, snapshot)], []), Emitting(agentId, [], [snapshot]));
    var live := Live(agentId, ActorBefore(agentId), feed, [snapshot], [], KNOWS_NOTHING);
    OneEventOn(OffAndOn(agentId), 4, Emitting(agentId, [], [snapshot]), live);
    IsDelivered(agentId);
    var written := Live(agentId, ActorBefore(agentId), feed, [], [snapshot], KNOWS_NOTHING);
    OneEventOn(OffAndOn(agentId), 5, live, written);
    OneEventOn(OffAndOn(agentId), 6, written, Live(agentId, ActorBefore(agentId), feed, [], [], Knows(agentId)));
  }

  lemma RunsToToggled(agentId: AgentId)
    ensures Run(Fresh(1), OffAndOn(agentId)[..9]) == Toggled(agentId, [])
  {
    hide Run, Step, Genuine, Knows;
    BothGenuine(agentId);
    var feed := NewFeed(agentId).(queue := [Published(agentId)]);
    var published := Live(agentId, ActorAfter(agentId), feed, [], [], Knows(agentId));
    RunsToLive(agentId);
    IsPublished(agentId);
    OneEventOn(OffAndOn(agentId), 7, Live(agentId, ActorBefore(agentId), NewFeed(agentId), [], [], Knows(agentId)), published);
    IsPushed(agentId);
    OneEventOn(OffAndOn(agentId), 8, published, Toggled(agentId, []));
  }

  lemma RunsToSwitched(agentId: AgentId)
    ensures Run(Fresh(1), OffAndOn(agentId)) == Switched(agentId)
  {
    hide Run, Step, Genuine, Knows, ActorAfter;
    BothGenuine(agentId);
    RunsToToggled(agentId);
    IsToggled(agentId);
    OneEventOn(OffAndOn(agentId), 9, Toggled(agentId, []), Toggled(agentId, [Unsubscribe(agentId)]));
    OneEventOn(OffAndOn(agentId), 10, Toggled(agentId, [Unsubscribe(agentId)]), Toggled(agentId, [Unsubscribe(agentId), Resume(agentId)]));
    IsSwitched(agentId);
    OneEventOn(OffAndOn(agentId), 11, Toggled(agentId, [Unsubscribe(agentId), Resume(agentId)]), Switched(agentId));
    assert OffAndOn(agentId)[..12] == OffAndOn(agentId);
  }

  lemma SwitchedAnswers(agentId: AgentId)
    requires forall a :: a in ActorAfter(agentId) ==> Genuine(ActorAfter(agentId)[a].history)
    ensures var s := Switched(agentId);
            var h := History(Initial(agentId), [Published(agentId)]);
            && Answers(s, agentId) && s.actors[agentId].history == h
            && s.link.inbox[0].cursor == Cursor(s.client, agentId)
            && ShareOf(s.client, agentId) == InStep(h, 0)
  {
    hide Genuine;
  }

  lemma UpdateOnItsWay(agentId: AgentId)
    ensures OnTheWay(Switched(agentId).link, agentId) == LogFrames([Published(agentId)], 0, 1)
  {
    hide Concerns;
    var frame := FrameOf(Published(agentId));
    UpdateConcerns(Published(agentId), agentId);
    FilterOne(frame, agentId);
    EmptyFilter(agentId);
    assert FramesIn([]) == [];
  }

  lemma ResumeReplays(agentId: AgentId)
    requires Genuine(History(Initial(agentId), [Published(agentId)]))
    ensures var h := History(Initial(agentId), [Published(agentId)]);
            StartFor(h, 2, Some(CursorOf(Initial(agentId)))) == Replay(h.log[0..])
  {
    hide Genuine;
    var h := History(Initial(agentId), [Published(agentId)]);
    CountersCount(h, 1);
    TrueCursorReplaysIffRetained(h, 2, 0);
  }

  /** Such a run exists: the update is on its way twice, and the answer to the client's own cursor does not fit. */
  lemma DoubledUpdateDoesNotFit(agentId: AgentId)
    ensures var s := Run(Fresh(1), OffAndOn(agentId));
            && Answers(s, agentId) && Genuine(s.actors[agentId].history)
            && s.link.inbox[0].cursor == Cursor(s.client, agentId)
            && !Fits(s, agentId)
  {
    hide Inv, Step, Run, Fits, Answers, OnTheWay, InStep, Genuine, ShareOf, StartFor, LogFrames, OffAndOn;
    RunsToSwitched(agentId);
    BothGenuine(agentId);
    SwitchedAnswers(agentId);
    UpdateOnItsWay(agentId);
    assert Genuine(ActorAfter(agentId)[agentId].history);
    ResumeReplays(agentId);
    ReplayFitsExactlyWhen(Switched(agentId), agentId, 0, 1, 0);
  }

  // ----- a replay that is cut -----

  /** An agent turned off publishes twice; turned on again, it replays into a state lane with room for one frame. */
  function OffForAWhile(agentId: AgentId): seq<Event> {
    [Launch(Initial(agentId), 2, 1), ClientSubscribes(agentId, false), ServerTakesRequest, ServerEmits, ServerEmits,
     WriterSends, ClientTakesFrame, ClientUnsubscribes(agentId), ServerTakesRequest, FeedStops(0),
     ActorPublishes(agentId, OtherMessage("")), ActorPublishes(agentId, OtherMessage("")),
     ClientSubscribes(agentId, true), ServerTakesRequest, ServerEmits]
  }

  function PublishedNext(agentId: AgentId): AgentUpdate {
    Event(agentId, 2, OtherMessage(""))
  }

  function ActorTwice(agentId: AgentId): map<AgentId, Actor> {
    map[agentId := Actor(History(Initial(agentId), [Published(agentId), PublishedNext(agentId)]), 2, 1)]
  }

  /** Nobody follows the agent. */
  function Unfollowed(agentId: AgentId, actors: map<AgentId, Actor>, inbox: seq<Request>): System {
    System(actors, 1, NO_LINK.(nextFeed := 1, inbox := inbox), Knows(agentId))
  }

  /** The second subscription's start is being emitted. */
  function Replaying(agentId: AgentId, rest: seq<LaneSend>, lane: seq<ServerFrame>): System {
    var s := Unfollowed(agentId, ActorTwice(agentId), []);
    s.(link := s.link.(feeds := map[1 := NewFeed(agentId).(position := 2)], nextFeed := 2,
                       emission := Some(Emission(1, rest)), state := lane))
  }

  function Unsubscribing(agentId: AgentId): System {
    var s := Live(agentId, ActorBefore(agentId), NewFeed(agentId), [], [], Knows(agentId));
    s.(link := s.link.(inbox := [Unsubscribe(agentId)]))
  }

  function Aborting(agentId: AgentId): System {
    var s := Live(agentId, ActorBefore(agentId), NewFeed(agentId), [], [], Knows(agentId));
    s.(link := s.link.(subscriptions := map[], feeds := map[0 := NewFeed(agentId).(live := true, aborted := true)]))
  }

  lemma TwiceGenuine(agentId: AgentId)
    ensures forall a :: a in ActorTwice(agentId) ==> Genuine(ActorTwice(agentId)[a].history)
  {
    var h := History(Initial(agentId), [Published(agentId), PublishedNext(agentId)]);
    assert At(h, 1) == Advance(h.base, h.log[0]);
    assert NextAt(h, 0) && NextAt(h, 1);
  }

  lemma IsUnsubscribing(agentId: AgentId)
    requires forall a :: a in ActorBefore(agentId) ==> Genuine(ActorBefore(agentId)[a].history)
    ensures Step(Live(agentId, ActorBefore(agentId), NewFeed(agentId), [], [], Knows(agentId)), ClientUnsubscribes(agentId))
            == Unsubscribing(agentId)
  {
    hide Genuine;
    assert [] + [Unsubscribe(agentId)] == [Unsubscribe(agentId)];
  }

  lemma IsAborting(agentId: AgentId)
    requires forall a :: a in ActorBefore(agentId) ==> Genuine(ActorBefore(agentId)[a].history)
    ensures Step(Unsubscribing(agentId), ServerTakesRequest) == Aborting(agentId)
  {
    hide Genuine;
    var s := Unsubscribing(agentId);
    assert [Unsubscribe(agentId)][1..] == [];
    assert s.link.subscriptions - {agentId} == map[];
    assert Step(s, ServerTakesRequest).link.feeds == Aborting(agentId).link.feeds;
  }

  lemma IsUnfollowed(agentId: AgentId)
    requires forall a :: a in ActorBefore(agentId) ==> Genuine(ActorBefore(agentId)[a].history)
    ensures Step(Aborting(agentId), FeedStops(0)) == Unfollowed(agentId, ActorBefore(agentId), [])
  {
    hide Genuine;
    assert Aborting(agentId).link.feeds - {0} == map[];
  }

  lemma PublishesAlone(agentId: AgentId)
    requires forall a :: a in ActorBefore(agentId) ==> Genuine(ActorBefore(agentId)[a].history)
    ensures Step(Unfollowed(agentId, ActorBefore(agentId), []), ActorPublishes(agentId, OtherMessage("")))
            == Unfollowed(agentId, ActorAfter(agentId), [])
  {
    hide Genuine;
    var after := Step(Unfollowed(agentId, ActorBefore(agentId), []), ActorPublishes(agentId, OtherMessage("")));
    var h := History(Initial(agentId), []);
    assert EventFor(Current(h), OtherMessage("")) == Ok(Published(agentId));
    assert Extend(h, Published(agentId)) == History(Initial(agentId), [Published(agentId)]);
    assert after.actors == ActorAfter(agentId);
    assert after.link.feeds == map[];
  }

  lemma PublishesAgain(agentId: AgentId)
    requires forall a :: a in ActorAfter(agentId) ==> Genuine(ActorAfter(agentId)[a].history)
    ensures Step(Unfollowed(agentId, ActorAfter(agentId), []), ActorPublishes(agentId, OtherMessage("")))
            == Unfollowed(agentId, ActorTwice(agentId), [])
  {
    hide Genuine;
    var after := Step(Unfollowed(agentId, ActorAfter(agentId), []), ActorPublishes(agentId, OtherMessage("")));
    var h := History(Initial(agentId), [Published(agentId)]);
    assert At(h, 1) == Advance(At(h, 0), h.log[0]);
    assert EventFor(Current(h), OtherMessage("")) == Ok(PublishedNext(agentId));
    assert Extend(h, PublishedNext(agentId)) == History(Initial(agentId), [Published(agentId), PublishedNext(agentId)]);
    assert after.actors == ActorTwice(agentId);
    assert after.link.feeds == map[];
  }

  lemma ResumesLate(agentId: AgentId)
    requires forall a :: a in ActorTwice(agentId) ==> Genuine(ActorTwice(agentId)[a].history)
    ensures Step(Unfollowed(agentId, ActorTwice(agentId), []), ClientSubscribes(agentId, true))
            == Unfollowed(agentId, ActorTwice(agentId), [Resume(agentId)])
  {
    hide Genuine;
  }

  lemma LateReplay(agentId: AgentId)
    requires Genuine(History(Initial(agentId), [Published(agentId), PublishedNext(agentId)]))
    ensures var h := History(Initial(agentId), [Published(agentId), PublishedNext(agentId)]);
            StartFor(h, 2, Some(CursorOf(Initial(agentId)))) == Replay(h.log)
  {
    hide Genuine;
    var h := History(Initial(agentId), [Published(agentId), PublishedNext(agentId)]);
    CountersCount(h, 2);
    TrueCursorReplaysIffRetained(h, 2, 0);
    assert h.log[0..] == h.log;
  }

  function BothSends(agentId: AgentId): seq<LaneSend> {
    [LaneSend(StateLane, FrameOf(Published(agentId))), LaneSend(StateLane, FrameOf(PublishedNext(agentId)))]
  }

  lemma ReplaysTwo(agentId: AgentId)
    requires forall a :: a in ActorTwice(agentId) ==> Genuine(ActorTwice(agentId)[a].history)
    ensures Step(Unfollowed(agentId, ActorTwice(agentId), [Resume(agentId)]), ServerTakesRequest)
            == Replaying(agentId, BothSends(agentId), [])
    ensures Step(Replaying(agentId, BothSends(agentId), []), ServerEmits)
            == Replaying(agentId, BothSends(agentId)[1..], [FrameOf(Published(agentId))])
  {
    hide Genuine, StartFor;
    assert Genuine(ActorTwice(agentId)[agentId].history);
    LateReplay(agentId);
    var s := Unfollowed(agentId, ActorTwice(agentId), [Resume(agentId)]);
    assert FramesOf([Published(agentId), PublishedNext(agentId)]) == BothSends(agentId);
    assert s.link.inbox[1..] == [];
    assert s.link.subscriptions - {agentId} == map[];
    assert Step(s, ServerTakesRequest).link.feeds == map[1 := NewFeed(agentId).(position := 2)];
  }

  lemma RunsToUnfollowed(agentId: AgentId)
    ensures Run(Fresh(1), OffForAWhile(agentId)[..10]) == Unfollowed(agentId, ActorBefore(agentId), [])
  {
    hide Run, Step, Genuine, Knows, NewFeed;
    BothGenuine(agentId);
    RunsToLive(agentId);
    var events := OffForAWhile(agentId);
    assert events[..7] == OffAndOn(agentId)[..7];
    IsUnsubscribing(agentId);
    OneEventOn(events, 7, Live(agentId, ActorBefore(agentId), NewFeed(agentId), [], [], Knows(agentId)), Unsubscribing(agentId));
    IsAborting(agentId);
    OneEventOn(events, 8, Unsubscribing(agentId), Aborting(agentId));
    IsUnfollowed(agentId);
    OneEventOn(events, 9, Aborting(agentId), Unfollowed(agentId, ActorBefore(agentId), []));
  }

  lemma RunsToResume(agentId: AgentId)
    ensures Run(Fresh(1), OffForAWhile(agentId)[..13]) == Unfollowed(agentId, ActorTwice(agentId), [Resume(agentId)])
  {
    hide Run, Step, Genuine, Knows, Resume;
    BothGenuine(agentId);
    TwiceGenuine(agentId);
    RunsToUnfollowed(agentId);
    var events := OffForAWhile(agentId);
    PublishesAlone(agentId);
    OneEventOn(events, 10, Unfollowed(agentId, ActorBefore(agentId), []), Unfollowed(agentId, ActorAfter(agentId), []));
    PublishesAgain(agentId);
    OneEventOn(events, 11, Unfollowed(agentId, ActorAfter(agentId), []), Unfollowed(agentId, ActorTwice(agentId), []));
    ResumesLate(agentId);
    OneEventOn(events, 12, Unfollowed(agentId, ActorTwice(agentId), []), Unfollowed(agentId, ActorTwice(agentId), [Resume(agentId)]));
  }

  lemma ResumeFits(agentId: AgentId)
    requires Inv(Unfollowed(agentId, ActorTwice(agentId), [Resume(agentId)]))
    requires forall a :: a in ActorTwice(agentId) ==> Genuine(ActorTwice(agentId)[a].history)
    ensures var s := Unfollowed(agentId, ActorTwice(agentId), [Resume(agentId)]);
            Answers(s, agentId) && Fits(s, agentId)
  {
    hide Inv, Genuine, Fits;
    var s := Unfollowed(agentId, ActorTwice(agentId), [Resume(agentId)]);
    NoLinkIsQuiet(agentId);
    SameLanes(NO_LINK, s.link, agentId);
    OwnCursorFits(s, agentId);
  }

  /** Emitting the first update changes nothing about where the subscription stands. */
  lemma FirstUpdateIsOrderly(agentId: AgentId, p: Progress)
    requires Inv(Replaying(agentId, BothSends(agentId), [])) && p.Started? && p.feed == 1
    ensures Progressed(Replaying(agentId, BothSends(agentId), []), ServerEmits, agentId, p) == p
  {
    hide Inv, Step, OnTheWay, Settled;
  }

  lemma StillRestoringAfter(agentId: AgentId, p: Progress)
    requires Restoring(Replaying(agentId, BothSends(agentId), []), agentId, p) && p.feed == 1
    ensures var s := Replaying(agentId, BothSends(agentId)[1..], [FrameOf(Published(agentId))]);
            && Restoring(s, agentId, p) && CutsStart(s.link, p.feed, 1)
            && UpdateIn(Remaining(s.link)[0].frame).Some?
  {
    hide InStep;
  }

  /** Such a run exists: a replay that would restore the client is about to be cut after its first update. */
  lemma ReplayCanBeCut(agentId: AgentId)
    ensures var s := Run(Fresh(1), OffForAWhile(agentId));
            var p := ProgressOf(1, OffForAWhile(agentId), agentId);
            && Restoring(s, agentId, p) && CutsStart(s.link, p.feed, 1)
            && UpdateIn(Remaining(s.link)[0].frame).Some?
  {
    hide Inv, Step, Run, ProgressAfter, Progressed, Restoring, CutsStart, Fits, Answers, Tracks, Genuine, OnTheWay, Settled;
    var events := OffForAWhile(agentId);
    TwiceGenuine(agentId);
    RunsToResume(agentId);
    var asked := Unfollowed(agentId, ActorTwice(agentId), [Resume(agentId)]);
    ResumeFits(agentId);
    AnsweredTracks(asked, agentId);
    ReplaysTwo(agentId);
    OneEventOn(events, 13, asked, Replaying(agentId, BothSends(agentId), []));
    LastEvent(events, 13, agentId);
    var answered := Replaying(agentId, BothSends(agentId), []);
    var p := ProgressOf(1, events[..14], agentId);
    AnswerForgets(asked, agentId, ProgressOf(1, events[..13], agentId));
    OneEventOn(events, 14, answered, Replaying(agentId, BothSends(agentId)[1..], [FrameOf(Published(agentId))]));
    LastEvent(events, 14, agentId);
    FirstUpdateIsOrderly(agentId, p);
    StillRestoringAfter(agentId, p);
    assert events[..15] == events;
  }

  lemma LastEvent(events: seq<Event>, k: nat, agentId: AgentId)
    requires k < |events|
    ensures ProgressOf(1, events[..k + 1], agentId)
            == Progressed(Run(Fresh(1), events[..k]), events[k], agentId, ProgressOf(1, events[..k], agentId))
  {
    hide Inv, Step, Progressed, Run, ProgressAfter;
    LastOf(Fresh(1), NOTHING, events[..k + 1], agentId);
    assert events[..k + 1][..k] == events[..k];
  }
}
