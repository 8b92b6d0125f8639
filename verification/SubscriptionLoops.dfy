/** The loops that serve a connection's subscriptions: one per agent, none after an unsubscribe, and none that gives up silently. */
module SubscriptionLoops {
  import opened Prelude
  import opened ControlState
  import opened ActorHistory
  import opened Reducer
  import opened ReplicationSystem
  import opened Reconvergence
  import opened AgentShare
  import opened SubscriptionInFlight
  import opened Delivery

  // ----- one loop per agent -----

  /** The queue belongs to the subscription the server knows for its agent, or to the one it is starting. */
  predicate IsCurrent(link: Link, id: nat)
    requires id in link.feeds
  {
    || (link.feeds[id].agentId in link.subscriptions && link.subscriptions[link.feeds[id].agentId] == id)
    || (link.emission.Some? && link.emission.value.feed == id)
  }

  predicate LoopOk(link: Link, id: nat)
    requires id in link.feeds
  {
    id < link.nextFeed && (!link.feeds[id].aborted ==> IsCurrent(link, id))
  }

  predicate KnownOk(link: Link, agentId: AgentId)
    requires agentId in link.subscriptions
  {
    var id := link.subscriptions[agentId];
    id < link.nextFeed && (id in link.feeds ==> link.feeds[id].agentId == agentId)
  }

  predicate StartingOk(link: Link) {
    link.emission.Some? ==>
      var id := link.emission.value.feed;
      id < link.nextFeed && (id in link.feeds ==> link.feeds[id].agentId !in link.subscriptions)
  }

  predicate Loops(link: Link) {
    && (forall id :: id in link.feeds ==> LoopOk(link, id))
    && (forall a :: a in link.subscriptions ==> KnownOk(link, a))
    && StartingOk(link)
  }

  /** No loop was added, and none was told anything. */
  predicate SameFeeds(link: Link, after: Link) {
    forall id :: id in after.feeds ==>
      id in link.feeds && after.feeds[id].agentId == link.feeds[id].agentId
      && after.feeds[id].aborted == link.feeds[id].aborted
  }

  predicate SameLoops(link: Link, after: Link) {
    && after.subscriptions == link.subscriptions && after.emission.Some? == link.emission.Some?
    && (after.emission.Some? ==> after.emission.value.feed == link.emission.value.feed)
    && after.nextFeed == link.nextFeed && SameFeeds(link, after)
  }

  lemma FeedsMayChange(link: Link, after: Link)
    requires Loops(link) && SameLoops(link, after)
    ensures Loops(after)
  {
    forall id | id in after.feeds ensures LoopOk(after, id) {
      assert LoopOk(link, id);
    }
    forall a | a in after.subscriptions ensures KnownOk(after, a) {
      assert KnownOk(link, a);
    }
  }

  lemma AbortKeepsLoops(link: Link, agentId: AgentId)
    requires Loops(link) && link.emission.None?
    ensures var after := Abort(link, agentId);
            && Loops(after) && agentId !in after.subscriptions && after.emission.None? && after.nextFeed == link.nextFeed
            && after.feeds.Keys == link.feeds.Keys
            && NoLoop(after, agentId)
            && (forall a :: a != agentId ==> (NoLoop(link, a) <==> NoLoop(after, a)))
  {
    var after := Abort(link, agentId);
    forall id | id in after.feeds ensures LoopOk(after, id) {
      assert LoopOk(link, id);
    }
    forall a | a in after.subscriptions ensures KnownOk(after, a) {
      assert KnownOk(link, a);
    }
    assert agentId in link.subscriptions ==> KnownOk(link, agentId);
    forall id | id in after.feeds && after.feeds[id].agentId == agentId ensures after.feeds[id].aborted {
      assert LoopOk(link, id);
    }
    forall a | a != agentId ensures NoLoop(link, a) <==> NoLoop(after, a) {
      assert forall id :: id in link.feeds && link.feeds[id].agentId == a ==> after.feeds[id] == link.feeds[id];
    }
  }

  /** Every loop of the agent has been told to end. */
  predicate NoLoop(link: Link, agentId: AgentId) {
    forall id :: id in link.feeds && link.feeds[id].agentId == agentId ==> link.feeds[id].aborted
  }

  lemma StartKeepsLoops(link: Link, feed: Feed, sends: seq<LaneSend>)
    requires Loops(link) && link.emission.None? && feed.agentId !in link.subscriptions
    ensures Loops(link.(feeds := link.feeds[link.nextFeed := feed], nextFeed := link.nextFeed + 1,
                        emission := Some(Emission(link.nextFeed, sends))))
  {
    var after := link.(feeds := link.feeds[link.nextFeed := feed], nextFeed := link.nextFeed + 1,
                       emission := Some(Emission(link.nextFeed, sends)));
    forall id | id in after.feeds ensures LoopOk(after, id) {
      if id != link.nextFeed {
        assert LoopOk(link, id);
      }
    }
    forall a | a in after.subscriptions ensures KnownOk(after, a) {
      assert KnownOk(link, a);
    }
  }

  lemma TakeRequestKeepsLoops(s: System)
    requires Loops(s.link) && s.link.inbox != [] && s.link.emission.None?
    requires forall a :: a in s.actors ==> Genuine(s.actors[a].history)
    ensures Loops(TakeRequest(s).link)
    ensures s.link.inbox[0].Unsubscribe? ==> NoLoop(TakeRequest(s).link, s.link.inbox[0].agentId)
  {
    hide Genuine, StartFor, StartSends, Loops, Abort, NoLoop;
    var rest := s.link.(inbox := s.link.inbox[1..]);
    FeedsMayChange(s.link, rest);
    AbortKeepsLoops(rest, s.link.inbox[0].agentId);
    match s.link.inbox[0] {
      case Unsubscribe(_) =>
      case Subscribe(agentId, cursor) =>
        if agentId in s.actors {
          var actor := s.actors[agentId];
          StartKeepsLoops(Abort(rest, agentId), Feed(agentId, |actor.history.log|, [], true, false, false, false, NoGap),
            StartSends(StartFor(actor.history, actor.replayCapacity, cursor)));
        } else {
          FeedsMayChange(s.link, rest.(control := rest.control + [OtherFrame]));
        }
    }
  }

  lemma EmitKeepsLoops(link: Link, capacity: nat)
    requires Loops(link) && link.emission.Some?
    ensures Loops(Emit(link, capacity))
  {
    var after := Emit(link, capacity);
    var Emission(id, remaining) := link.emission.value;
    if remaining == [] && id in link.feeds {
      forall k | k in after.feeds ensures LoopOk(after, k) {
        assert LoopOk(link, k);
      }
      forall a | a in after.subscriptions ensures KnownOk(after, a) {
        assert a in link.subscriptions ==> KnownOk(link, a);
      }
    } else if remaining == [] {
      forall k | k in after.feeds ensures LoopOk(after, k) {
        assert LoopOk(link, k);
      }
      forall a | a in after.subscriptions ensures KnownOk(after, a) {
        assert KnownOk(link, a);
      }
    } else {
      hide Loops;
      FeedsMayChange(link, after);
    }
  }

  lemma RecordedSame(s: System, agentId: AgentId, update: AgentUpdate)
    requires agentId in s.actors
    ensures SameLoops(s.link, Recorded(s, agentId, update).link)
  {
  }

  lemma TakeUpdateSame(link: Link, id: nat, flagged: bool, capacity: nat)
    requires id in link.feeds
    ensures SameLoops(link, TakeUpdate(link, id, flagged, capacity))
  {
    hide FrameOf;
  }

  lemma GapSame(link: Link, id: nat, current: AgentSnapshot, capacity: nat)
    requires id in link.feeds
    ensures SameLoops(link, ReadSnapshot(link, id, current))
    ensures SameLoops(link, SendGap(link, id, capacity))
  {
  }

  /** Apart from the server's own steps and a lost connection, nothing adds a loop or tells one to end. */
  lemma StepSame(s: System, e: ReplicationSystem.Event)
    requires forall a :: a in s.actors ==> Genuine(s.actors[a].history)
    requires !e.ServerTakesRequest? && !e.ServerEmits? && !e.ConnectionLost?
    ensures SameLoops(s.link, Step(s, e).link)
  {
    hide Genuine, Current, DeltaFor, EventFor, Recorded, Reduce, Resubscriptions, Cursor, SameLoops, TakeUpdate,
      ReadSnapshot, SendGap;
    OnlyLanes(s.link);
    match e {
      case ActorChanges(a, change) =>
        if a in s.actors {
          var d := DeltaFor(Current(s.actors[a].history), change);
          if d.Ok? && d.value.Some? { RecordedSame(s, a, d.value.value); }
        }
      case ActorPublishes(a, payload) =>
        if a in s.actors {
          var u := EventFor(Current(s.actors[a].history), payload);
          if u.Ok? { RecordedSame(s, a, u.value); }
        }
      case FeedTakes(id, flagged) => if id in s.link.feeds { TakeUpdateSame(s.link, id, flagged, s.laneCapacity); }
      case FeedReadsSnapshot(id) =>
        if id in s.link.feeds && s.link.feeds[id].agentId in s.actors {
          GapSame(s.link, id, Current(s.actors[s.link.feeds[id].agentId].history), s.laneCapacity);
        }
      case FeedSendsGap(id) => if id in s.link.feeds { GapSame(s.link, id, Initial(""), s.laneCapacity); }
      case FeedStops(id) => FewerSame(s.link, id);
      case _ =>
    }
  }

  lemma OnlyLanes(link: Link)
    ensures forall after: Link | after == link.(inbox := after.inbox, control := after.control,
              response := after.response, state := after.state, wire := after.wire) :: SameLoops(link, after)
  {
  }

  lemma FewerSame(link: Link, id: nat)
    ensures SameLoops(link, link.(feeds := link.feeds - {id})) && SameLoops(link, link)
  {
  }

  lemma StepKeepsLoops(s: System, e: ReplicationSystem.Event)
    requires Loops(s.link) && forall a :: a in s.actors ==> Genuine(s.actors[a].history)
    ensures Loops(Step(s, e).link)
  {
    hide Loops, Genuine, TakeRequest, Emit, SameLoops;
    match e {
      case ServerTakesRequest => if s.link.inbox != [] && s.link.emission.None? { TakeRequestKeepsLoops(s); }
      case ServerEmits => if s.link.emission.Some? { EmitKeepsLoops(s.link, s.laneCapacity); }
      case ConnectionLost => EmptyLoops();
      case _ => hide Step; StepSame(s, e); FeedsMayChange(s.link, Step(s, e).link);
    }
  }

  lemma EmptyLoops()
    ensures Loops(NO_LINK)
  {
  }

  lemma {:induction false} LoopsAlways(laneCapacity: nat, events: seq<ReplicationSystem.Event>)
    ensures Loops(Run(Fresh(laneCapacity), events).link)
  {
    if events != [] {
      hide Loops, Step, Inv;
      var before := events[..|events| - 1];
      LoopsAlways(laneCapacity, before);
      LastOf(Fresh(laneCapacity), NOTHING, events, "");
      StepKeepsLoops(Run(Fresh(laneCapacity), before), events[|events| - 1]);
    }
  }

  /** Over every run an agent has at most one loop on a connection that has not been told to end. */
  lemma OneLoopPerAgent(laneCapacity: nat, events: seq<ReplicationSystem.Event>, x: nat, y: nat)
    requires var link := Run(Fresh(laneCapacity), events).link;
             && x in link.feeds && y in link.feeds && link.feeds[x].agentId == link.feeds[y].agentId
             && !link.feeds[x].aborted && !link.feeds[y].aborted
    ensures x == y
  {
    LoopsAlways(laneCapacity, events);
    hide Run;
    var link := Run(Fresh(laneCapacity), events).link;
    assert LoopOk(link, x) && LoopOk(link, y);
  }

  /** The loops told to end stay told. */
  lemma NoLoopStays(s: System, e: ReplicationSystem.Event, agentId: AgentId)
    requires Inv(s) && Loops(s.link) && NoLoop(s.link, agentId)
    requires !(e.ServerTakesRequest? && SubscriptionInFlight.Answers(s, agentId))
    requires forall a :: a in s.actors ==> Genuine(s.actors[a].history)
    ensures NoLoop(Step(s, e).link, agentId)
  {
    hide Inv, Genuine, TakeRequest, Loops, NoLoop;
    if e.ServerTakesRequest? {
      if s.link.inbox != [] && s.link.emission.None? {
        TakingKeepsNoLoop(s, agentId);
      }
    } else if e.ConnectionLost? {
      EmptyHasNoLoop(agentId);
    } else {
      hide Step;
      if e.ServerEmits? {
        EmitKeepsFeeds(s);
      } else {
        StepSame(s, e);
      }
      SameFeedsKeepNoLoop(s.link, Step(s, e).link, agentId);
    }
  }

  lemma EmptyHasNoLoop(agentId: AgentId)
    ensures NoLoop(NO_LINK, agentId)
  {
  }

  lemma SameFeedsKeepNoLoop(link: Link, after: Link, agentId: AgentId)
    requires NoLoop(link, agentId) && SameFeeds(link, after)
    ensures NoLoop(after, agentId)
  {
  }

  lemma EmitKeepsFeeds(s: System)
    requires forall a :: a in s.actors ==> Genuine(s.actors[a].history)
    ensures SameFeeds(s.link, Step(s, ServerEmits).link)
  {
    hide Genuine;
  }

  lemma TakingKeepsNoLoop(s: System, agentId: AgentId)
    requires Inv(s) && Loops(s.link) && NoLoop(s.link, agentId) && s.link.inbox != [] && s.link.emission.None?
    requires !SubscriptionInFlight.Answers(s, agentId)
    requires forall a :: a in s.actors ==> Genuine(s.actors[a].history)
    ensures NoLoop(TakeRequest(s).link, agentId)
  {
    hide Inv, Genuine, Loops, Abort, StartFor, StartSends;
    var rest := s.link.(inbox := s.link.inbox[1..]);
    FeedsMayChange(s.link, rest);
    AbortKeepsLoops(rest, s.link.inbox[0].agentId);
    assert NoLoop(rest, agentId);
    assert NoLoop(Abort(rest, s.link.inbox[0].agentId), agentId);
  }

  predicate NotAnswered(s: System, events: seq<ReplicationSystem.Event>, agentId: AgentId, i: nat)
    requires Inv(s) && i < |events|
  {
    !(events[i].ServerTakesRequest? && SubscriptionInFlight.Answers(Run(s, events[..i]), agentId))
  }

  lemma {:induction false} NoLoopRun(s: System, events: seq<ReplicationSystem.Event>, agentId: AgentId)
    requires Inv(s) && Loops(s.link) && NoLoop(s.link, agentId)
    requires forall i :: 0 <= i < |events| ==> NotAnswered(s, events, agentId, i)
    ensures NoLoop(Run(s, events).link, agentId) && Loops(Run(s, events).link)
  {
    hide Inv, Step, Loops, NoLoop, Run, Answers;
    if events != [] {
      var last := |events| - 1;
      var before := events[..last];
      forall i | 0 <= i < |before| ensures NotAnswered(s, before, agentId, i) {
        assert before[..i] == events[..i];
        assert NotAnswered(s, events, agentId, i);
      }
      NoLoopRun(s, before, agentId);
      assert NotAnswered(s, events, agentId, last);
      LastOf(s, NOTHING, events, agentId);
      StepKeepsLoops(Run(s, before), events[last]);
      NoLoopStays(Run(s, before), events[last], agentId);
    } else {
      NothingYet(s, NOTHING, agentId);
    }
  }

  /**
   * Once the server has taken an unsubscribe, every loop of the agent has been told to end, and it
   * stays that way over every later run until a subscription to the agent is answered again.
   */
  lemma UnsubscribeEndsTheLoop(
    laneCapacity: nat, before: seq<ReplicationSystem.Event>, agentId: AgentId, events: seq<ReplicationSystem.Event>)
    requires var s := Run(Fresh(laneCapacity), before);
             s.link.emission.None? && s.link.inbox != [] && s.link.inbox[0] == Unsubscribe(agentId)
    requires var s := Run(Fresh(laneCapacity), before + [ServerTakesRequest]);
             forall i :: 0 <= i < |events| ==> NotAnswered(s, events, agentId, i)
    ensures NoLoop(Run(Run(Fresh(laneCapacity), before + [ServerTakesRequest]), events).link, agentId)
  {
    hide Inv, Step, Loops, NoLoop, Run, TakeRequest, NotAnswered;
    var s := Run(Fresh(laneCapacity), before);
    InvMeansGenuine(s);
    LoopsAlways(laneCapacity, before);
    assert (before + [ServerTakesRequest])[..|before + [ServerTakesRequest]| - 1] == before;
    LastOf(Fresh(laneCapacity), NOTHING, before + [ServerTakesRequest], agentId);
    TakesIt(s);
    TakeRequestKeepsLoops(s);
    NoLoopRun(Run(Fresh(laneCapacity), before + [ServerTakesRequest]), events, agentId);
  }

  lemma TakesIt(s: System)
    requires s.link.emission.None? && s.link.inbox != []
    requires forall a :: a in s.actors ==> Genuine(s.actors[a].history)
    ensures Step(s, ServerTakesRequest) == TakeRequest(s)
  {
    hide Genuine, TakeRequest;
  }

  // ----- a slow consumer is told -----

  /**
   * Exactly when a turn of a running loop stops taking updates: it saw the overflow flag, its queue ran
   * dry after an overflow, or the state lane has no room for the update it took.
   */
  lemma LoopGivesUpExactlyWhen(link: Link, id: nat, flagged: bool, capacity: nat)
    requires id in link.feeds && link.feeds[id].live && link.feeds[id].gap == NoGap
    requires flagged ==> link.feeds[id].overflowed
    ensures var f := link.feeds[id];
            var after := TakeUpdate(link, id, flagged, capacity);
            && id in after.feeds
            && (after.feeds[id].gap == ReadingSnapshot <==>
                  flagged || (f.queue == [] && f.overflowed) || (f.queue != [] && |link.state| >= capacity))
            && (after.feeds[id].gap != ReadingSnapshot && f.queue != [] ==>
                  after.state == link.state + [FrameOf(f.queue[0])] && after.feeds[id].queue == f.queue[1..])
  {
    hide FrameOf;
  }

  /** The loop has given up, and nothing is in front of its gap. */
  predicate GivingUp(s: System, agentId: AgentId, id: nat) {
    && agentId in s.actors && id in s.link.feeds && s.laneCapacity > 0
    && s.link.feeds[id].agentId == agentId && s.link.feeds[id].gap == ReadingSnapshot
    && s.link.control == [] && s.link.wire == []
  }

  lemma GapIsSent(s: System, agentId: AgentId, id: nat)
    requires Inv(s) && GivingUp(s, agentId, id) && forall a :: a in s.actors ==> Genuine(s.actors[a].history)
    requires Current(s.actors[agentId].history).agentId == agentId
    ensures var current := Current(s.actors[agentId].history);
            var gap := ReplayGap(agentId, current.revision, current.eventSequence, SlowConsumer);
            var s1 := Step(s, FeedReadsSnapshot(id));
            && (forall a :: a in s1.actors ==> Genuine(s1.actors[a].history))
            && var s2 := Step(s1, FeedSendsGap(id));
               && s2.link.control == [gap] && s2.link.wire == [] && s2.actors == s.actors && s2.client == s.client
               && id !in s2.link.feeds && s2.link.inbox == s.link.inbox
  {
    hide Genuine, Current, Inv;
  }

  lemma GapArrives(s: System, gap: ServerFrame)
    requires s.link.control == [gap] && s.link.wire == [] && gap.ReplayGap?
    requires forall a :: a in s.actors ==> Genuine(s.actors[a].history)
    ensures var s1 := Step(s, WriterSends);
            && s1.actors == s.actors
            && var s2 := Step(s1, ClientTakesFrame);
               && gap.agentId in s2.client.resyncRequired && s2.client.agents == s.client.agents
               && s2.link.inbox == s.link.inbox + [Subscribe(gap.agentId, None)]
               && s2.link.feeds == s.link.feeds
  {
    hide Genuine;
  }

  /**
   * A subscriber that was too slow is told: four steps after its loop gave up, the loop is gone, the
   * client has the agent flagged, keeps what it has, and has asked for it again without a cursor.
   */
  lemma SlowConsumerIsTold(s: System, agentId: AgentId, id: nat)
    requires Inv(s) && GivingUp(s, agentId, id)
    ensures var after := Run(Run(s, [FeedReadsSnapshot(id), FeedSendsGap(id)]), [WriterSends, ClientTakesFrame]);
            && id !in after.link.feeds
            && agentId in after.client.resyncRequired && after.client.agents == s.client.agents
            && after.link.inbox == s.link.inbox + [Subscribe(agentId, None)]
  {
    hide Inv, Step, Run, Genuine, Current, GivingUp;
    GivingUpMeans(s, agentId, id);
    HistoryBelongs(s, agentId);
    CurrentIsPast(s.actors[agentId].history);
    InvMeansGenuine(s);
    GapIsSent(s, agentId, id);
    TwoSteps(s, FeedReadsSnapshot(id), FeedSendsGap(id));
    var told := Run(s, [FeedReadsSnapshot(id), FeedSendsGap(id)]);
    var current := Current(s.actors[agentId].history);
    GapArrives(told, ReplayGap(agentId, current.revision, current.eventSequence, SlowConsumer));
    TwoSteps(told, WriterSends, ClientTakesFrame);
  }

  lemma GivingUpMeans(s: System, agentId: AgentId, id: nat)
    requires GivingUp(s, agentId, id)
    ensures agentId in s.actors
  {
  }

  lemma TwoSteps(s: System, e0: ReplicationSystem.Event, e1: ReplicationSystem.Event)
    requires Inv(s)
    ensures forall a :: a in s.actors ==> Genuine(s.actors[a].history)
    ensures forall a :: a in Step(s, e0).actors ==> Genuine(Step(s, e0).actors[a].history)
    ensures Run(s, [e0, e1]) == Step(Step(s, e0), e1)
  {
    hide Inv, Step, Run, Genuine;
    InvMeansGenuine(s);
    StepKeepsInv(s, e0);
    InvMeansGenuine(Step(s, e0));
    RunOne(s, e0);
    RunOne(Step(s, e0), e1);
    RunAppend(s, [e0], [e1]);
    assert [e0] + [e1] == [e0, e1];
  }
}
