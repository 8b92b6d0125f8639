/**
 * What the answer to a subscription is worth, over whole runs: exactly when it brings the client back,
 * with frames of older subscriptions still on their way or not, and what becomes of a start that is cut.
 */
module SubscriptionRuns {
  import opened Prelude
  import opened ControlState
  import opened ActorHistory
  import opened Reducer
  import opened ReplicationSystem
  import opened Reconvergence
  import opened AgentShare
  import opened SubscriptionInFlight

  // ----- following the log -----

  lemma {:induction false} ReduceAllConcat(r: Replica, x: seq<ServerFrame>, y: seq<ServerFrame>)
    ensures ReduceAll(r, x + y) == ReduceAll(ReduceAll(r, x), y)
    decreases |x|
  {
    hide Reduce;
    if x == [] {
      assert x + y == y;
    } else {
      assert (x + y)[1..] == x[1..] + y;
      ReduceAllConcat(Reduce(r, x[0]), x[1..], y);
    }
  }

  /** A stretch of the log brings a client exactly to its end if it is in step at its beginning, and flags any other. */
  lemma {:induction false} FollowsLog(h: History, from: nat, upto: nat, r: Replica)
    requires Genuine(h) && from <= upto <= |h.log| && HoldsPast(r, h)
    ensures ShareOf(ReduceAll(r, LogFrames(h.log, from, upto)), h.base.agentId)
            == Follow(h, ShareOf(r, h.base.agentId), from, upto)
    decreases upto - from
  {
    hide Genuine, HoldsPast, Reduce, ShareOf, IsPast, FrameOf, At;
    var frames := LogFrames(h.log, from, upto);
    if from < upto {
      assert frames[0] == FrameOf(h.log[from]) && frames[1..] == LogFrames(h.log, from + 1, upto);
      UpdateDecides(h, from, r);
      StillHoldsPast(h, from, r);
      FollowsLog(h, from + 1, upto, Reduce(r, frames[0]));
    } else {
      assert frames == [];
    }
  }

  lemma StillHoldsPast(h: History, k: nat, r: Replica)
    requires Genuine(h) && k < |h.log| && HoldsPast(r, h)
    ensures HoldsPast(Reduce(r, FrameOf(h.log[k])), h)
  {
    hide Genuine, Reduce, FrameOf, At;
    UpdateDecides(h, k, r);
    CountersCount(h, k + 1);
  }

  lemma InStepExactlyWhen(h: History, share: Share, from: nat, upto: nat)
    requires from <= upto <= |h.log|
    ensures Follow(h, share, from, upto) == InStep(h, upto) <==> share == InStep(h, from)
  {
    hide At;
  }

  // ----- frames on their way are genuine -----

  lemma {:induction false} FilterGenuine(actors: map<AgentId, Actor>, frames: seq<ServerFrame>, agentId: AgentId)
    requires AllGenuine(actors, frames)
    ensures AllGenuine(actors, Filter(frames, agentId))
  {
    hide Filter, GenuineFrame, Concerns;
    FilterStep(frames, agentId);
    if frames != [] {
      FilterGenuine(actors, frames[1..], agentId);
    }
  }

  lemma OnTheWayGenuine(s: System, agentId: AgentId)
    requires Inv(s)
    ensures AllGenuine(s.actors, OnTheWay(s.link, agentId))
  {
    hide Filter, GenuineFrame, ActorsOk, ClientOk, FeedsOk;
    FilterGenuine(s.actors, s.link.wire, agentId);
    FilterGenuine(s.actors, s.link.control, agentId);
    FilterGenuine(s.actors, s.link.response, agentId);
    FilterGenuine(s.actors, s.link.state, agentId);
    FilterGenuine(s.actors, FramesIn(Remaining(s.link)), agentId);
  }

  lemma {:induction false} ReduceAllKeepsClient(actors: map<AgentId, Actor>, client: Replica, frames: seq<ServerFrame>)
    requires ActorsOk(actors) && ClientOk(actors, client) && AllGenuine(actors, frames)
    ensures ClientOk(actors, ReduceAll(client, frames))
    decreases |frames|
  {
    hide ActorsOk, ClientOk, GenuineFrame, Reduce;
    if frames != [] {
      ReduceKeepsClient(actors, client, frames[0]);
      ReduceAllKeepsClient(actors, Reduce(client, frames[0]), frames[1..]);
    }
  }

  lemma WillHoldPast(s: System, frames: seq<ServerFrame>, agentId: AgentId)
    requires Inv(s) && agentId in s.actors && AllGenuine(s.actors, frames)
    ensures HoldsPast(ReduceAll(s.client, frames), s.actors[agentId].history)
  {
    hide GenuineFrame, LinkOk, ReduceAll, IsPast, ActorsOk;
    InvParts(s, agentId);
    HistoryBelongs(s, agentId);
    ReduceAllKeepsClient(s.actors, s.client, frames);
    var r := ReduceAll(s.client, frames);
    if agentId in r.agents {
      assert GenuineSnapshot(s.actors, r.agents[agentId]);
    }
  }

  // ----- what an answer is worth -----

  /**
   * The answer about to be given fits: it carries a snapshot, or it replays the log from exactly where
   * the frames already on their way will leave the client.
   */
  predicate Fits(s: System, agentId: AgentId)
    requires Answers(s, agentId) && Genuine(s.actors[agentId].history)
  {
    var h := s.actors[agentId].history;
    match StartFor(h, s.actors[agentId].replayCapacity, s.link.inbox[0].cursor)
    case Replay(updates) => |updates| <= |h.log| && Settled(s.link, s.client, agentId) == InStep(h, |h.log| - |updates|)
    case _ => true
  }

  lemma EndsWithSnapshot(r: Replica, frames: seq<ServerFrame>, s: AgentSnapshot)
    ensures ShareOf(ReduceAll(r, frames + [SnapshotFrame([s])]), s.agentId) == Share(Some(s), false)
  {
    ReduceAllConcat(r, frames, [SnapshotFrame([s])]);
    SnapshotInstalls(ReduceAll(r, frames), s);
    hide ReduceAll;
  }

  /** Once the answer and everything before it has arrived, the client is in step exactly if the answer fits. */
  lemma AnswerRestoresExactlyWhen(s: System, agentId: AgentId)
    requires Inv(s) && Answers(s, agentId) && forall a :: a in s.actors ==> Genuine(s.actors[a].history)
    ensures var h := s.actors[agentId].history;
            Settled(TakeRequest(s).link, s.client, agentId) == InStep(h, |h.log|) <==> Fits(s, agentId)
  {
    hide Inv, Genuine, TakeRequest, StartFor, StartSends, OnTheWay, ReduceAll, ShareOf, FramesIn, At, FramesOf;
    var h := s.actors[agentId].history;
    var earlier := OnTheWay(s.link, agentId);
    StartLinesUp(s, agentId);
    HistoryBelongs(s, agentId);
    CurrentIsPast(h);
    var start := StartFor(h, s.actors[agentId].replayCapacity, s.link.inbox[0].cursor);
    match start {
      case Replay(updates) =>
        ReplayOfLog(h, s.actors[agentId].replayCapacity, s.link.inbox[0].cursor);
        ReplayRestoresExactlyWhen(s, agentId, |h.log| - |updates|);
      case _ =>
        StartIsCurrent(h, s.actors[agentId].replayCapacity, s.link.inbox[0].cursor);
        SnapshotStartRestores(s.client, earlier, h, start);
    }
  }

  lemma ReplayOfLog(h: History, capacity: nat, cursor: Option<SubscriptionCursor>)
    requires Genuine(h) && StartFor(h, capacity, cursor).Replay?
    ensures var updates := StartFor(h, capacity, cursor).updates;
            && |updates| <= |h.log| && updates == h.log[|h.log| - |updates|..]
            && FramesIn(StartSends(Replay(updates))) == LogFrames(h.log, |h.log| - |updates|, |h.log|)
  {
    hide Genuine, FrameOf;
    ReplayInsideLog(h, capacity, cursor.value);
  }

  lemma ReplayRestoresExactlyWhen(s: System, agentId: AgentId, from: nat)
    requires Inv(s) && agentId in s.actors && from <= |s.actors[agentId].history.log|
    ensures var h := s.actors[agentId].history;
            ShareOf(ReduceAll(s.client, OnTheWay(s.link, agentId) + LogFrames(h.log, from, |h.log|)), agentId)
              == InStep(h, |h.log|)
            <==> Settled(s.link, s.client, agentId) == InStep(h, from)
  {
    hide Inv, Genuine, OnTheWay, ReduceAll, ShareOf, AllGenuine, HoldsPast, Follow, InStep, LogFrames;
    var h := s.actors[agentId].history;
    var earlier := OnTheWay(s.link, agentId);
    HistoryBelongs(s, agentId);
    OnTheWayGenuine(s, agentId);
    WillHoldPast(s, earlier, agentId);
    ReduceAllConcat(s.client, earlier, LogFrames(h.log, from, |h.log|));
    FollowsLog(h, from, |h.log|, ReduceAll(s.client, earlier));
    InStepExactlyWhen(h, ShareOf(ReduceAll(s.client, earlier), agentId), from, |h.log|);
  }

  lemma StartIsCurrent(h: History, capacity: nat, cursor: Option<SubscriptionCursor>)
    requires Genuine(h)
    ensures var start := StartFor(h, capacity, cursor);
            !start.Replay? ==> start == Snapshot(Current(h)) || start == ResyncRequired(Current(h))
  {
    hide Genuine, At;
  }

  lemma SnapshotStartRestores(client: Replica, earlier: seq<ServerFrame>, h: History, start: SubscriptionStart)
    requires Genuine(h) && (start == Snapshot(Current(h)) || start == ResyncRequired(Current(h)))
    ensures ShareOf(ReduceAll(client, earlier + FramesIn(StartSends(start))), h.base.agentId) == InStep(h, |h.log|)
  {
    hide Genuine, ReduceAll, ShareOf, At;
    CurrentIsPast(h);
    var snapshot := SnapshotFrame([Current(h)]);
    var sends := StartSends(start);
    if start.Snapshot? {
      assert FramesIn(sends) == [snapshot];
      EndsWithSnapshot(client, earlier, Current(h));
    } else {
      assert FramesIn(sends) == [sends[0].frame] + [snapshot];
      assert earlier + FramesIn(sends) == (earlier + [sends[0].frame]) + [snapshot];
      EndsWithSnapshot(client, earlier + [sends[0].frame], Current(h));
    }
  }

  /**
   * The request a client makes by itself after a gap or a rejection carries no cursor, and such an
   * answer always fits.
   */
  lemma OwnRepairAlwaysFits(s: System, agentId: AgentId, client: Replica, frame: ServerFrame)
    requires Answers(s, agentId) && Genuine(s.actors[agentId].history)
    requires s.link.inbox[0] in Resubscriptions(client, frame)
    ensures Fits(s, agentId)
  {
    hide Genuine, OnTheWay, At, Rejection;
  }

  /**
   * Old updates and a replay: with a client in step at `held` and the log up to `upto` on its way to
   * it, an answer that replays from `from` fits exactly if the two meet; a doubled update never fits.
   */
  lemma ReplayFitsExactlyWhen(s: System, agentId: AgentId, held: nat, upto: nat, from: nat)
    requires Inv(s) && Answers(s, agentId) && Genuine(s.actors[agentId].history)
    requires held <= upto <= |s.actors[agentId].history.log| && from <= |s.actors[agentId].history.log|
    requires ShareOf(s.client, agentId) == InStep(s.actors[agentId].history, held)
    requires OnTheWay(s.link, agentId) == LogFrames(s.actors[agentId].history.log, held, upto)
    requires StartFor(s.actors[agentId].history, s.actors[agentId].replayCapacity, s.link.inbox[0].cursor)
             == Replay(s.actors[agentId].history.log[from..])
    ensures Fits(s, agentId) <==> from == upto
  {
    hide Inv, Genuine, OnTheWay, At, ReduceAll, HoldsPast, LogFrames, StartFor;
    var h := s.actors[agentId].history;
    HistoryBelongs(s, agentId);
    ClientHoldsPast(s, agentId);
    FollowsLog(h, held, upto, s.client);
    DifferentSteps(h, from, upto);
  }

  // ----- undisturbed runs -----

  /**
   * Anything may happen in any order, except: the connection is lost, or, once a subscription to the
   * agent has been answered, another one is, a frame of the start meets a full state lane, a gap of the
   * agent is sent, or the queue of an older subscription to it still pushes an update.
   */
  predicate Undisturbed(s: System, e: Event, agentId: AgentId, p: Progress) {
    && !e.ConnectionLost?
    && (p.Started? ==> !(e.ServerTakesRequest? && Answers(s, agentId)) && !Disturbs(s, e, agentId, p.feed))
  }

  predicate UndisturbedAt(s: System, p: Progress, events: seq<Event>, agentId: AgentId, i: nat)
    requires Inv(s) && i < |events|
  {
    Undisturbed(Run(s, events[..i]), events[i], agentId, ProgressAfter(s, p, events[..i], agentId))
  }

  predicate UndisturbedRun(s: System, p: Progress, events: seq<Event>, agentId: AgentId)
    requires Inv(s)
  {
    forall i :: 0 <= i < |events| ==> UndisturbedAt(s, p, events, agentId, i)
  }

  lemma UndisturbedBefore(s: System, p: Progress, events: seq<Event>, agentId: AgentId)
    requires Inv(s) && UndisturbedRun(s, p, events, agentId) && events != []
    ensures var before := events[..|events| - 1];
            && UndisturbedRun(s, p, before, agentId)
            && Undisturbed(Run(s, before), events[|events| - 1], agentId, ProgressAfter(s, p, before, agentId))
  {
    hide Inv, Undisturbed, Run, ProgressAfter;
    var before := events[..|events| - 1];
    forall i | 0 <= i < |before| ensures UndisturbedAt(s, p, before, agentId, i) {
      assert before[..i] == events[..i];
      assert UndisturbedAt(s, p, events, agentId, i);
    }
    assert UndisturbedAt(s, p, events, agentId, |events| - 1);
  }

  /** The start of this subscription leaves the client in step. */
  predicate Restoring(s: System, agentId: AgentId, p: Progress) {
    && p.Started? && agentId in s.actors && p.first <= |s.actors[agentId].history.log|
    && p.ends == InStep(s.actors[agentId].history, p.first)
  }

  /** A gap that overtakes older frames still has its snapshot behind it. */
  lemma OvertakingRestores(s: System, agentId: AgentId, p: Progress)
    requires Inv(s) && Tracks(s, agentId, p) && p.Started? && Overtakes(s.link, p.feed, s.laneCapacity)
    ensures var h := s.actors[agentId].history;
            && p.pushed == p.first <= |h.log| && p.ends == InStep(h, p.first)
            && Settled(Emit(s.link, s.laneCapacity), s.client, agentId) == InStep(h, p.first)
  {
    hide Inv, Filter, At, ReduceAll, ShareOf, InLanes, OwnFeed, RestOfStart, InStep;
    var h := s.actors[agentId].history;
    var after := Emit(s.link, s.laneCapacity);
    var snapshot := SnapshotFrame([At(h, p.first)]);
    HistoryBelongs(s, agentId);
    CountersCount(h, p.first);
    GapHeadsSnapshot(Remaining(s.link), h, p.first);
    BehindGap(s.link, after, At(h, p.first));
    EndsWithSnapshot(s.client, InLanes(s.link, agentId) + [Remaining(s.link)[0].frame], At(h, p.first));
    EndsWithSnapshot(s.client, InLanes(after, agentId), At(h, p.first));
    SnapshotIsInStep(h, p.first);
    assert LogFrames(h.log, p.first, p.first) == [];
    assert p.left + [] == p.left;
  }

  lemma SnapshotIsInStep(h: History, k: nat)
    requires k <= |h.log|
    ensures Share(Some(At(h, k)), false) == InStep(h, k)
  {
  }

  lemma GapHeadsSnapshot(sends: seq<LaneSend>, h: History, first: nat)
    requires first <= |h.log| && RestOfStart(sends, h, first) && sends != [] && sends[0].lane == ControlLane
    ensures sends == StartSends(ResyncRequired(At(h, first)))
  {
    hide At;
  }

  lemma BehindGap(link: Link, after: Link, snapshot: AgentSnapshot)
    requires Remaining(link) == StartSends(ResyncRequired(snapshot)) && link.emission.Some?
    requires after.emission == Some(Emission(link.emission.value.feed, Remaining(link)[1..]))
    ensures var a := snapshot.agentId;
            && OnTheWay(link, a) == InLanes(link, a) + [Remaining(link)[0].frame] + [SnapshotFrame([snapshot])]
            && OnTheWay(after, a) == InLanes(after, a) + [SnapshotFrame([snapshot])]
  {
    hide Filter, InLanes, Concerns;
    var a := snapshot.agentId;
    var sends := Remaining(link);
    SnapshotConcernsOnly(snapshot);
    OnlyOne(sends[0].frame, a, a);
    OnlyOne(sends[1].frame, a, a);
    assert FramesIn(sends) == [sends[0].frame, sends[1].frame];
    assert FramesIn(sends[1..]) == [sends[1].frame];
    FilterAll(FramesIn(sends), a);
    FilterAll(FramesIn(sends[1..]), a);
    assert InLanes(link, a) + [sends[0].frame, sends[1].frame] == InLanes(link, a) + [sends[0].frame] + [sends[1].frame];
  }

  lemma HistoryStays(s: System, e: Event, agentId: AgentId, k: nat)
    requires Inv(s) && agentId in s.actors && k <= |s.actors[agentId].history.log|
    requires forall a :: a in s.actors ==> Genuine(s.actors[a].history)
    ensures agentId in Step(s, e).actors && k <= |Step(s, e).actors[agentId].history.log|
    ensures |s.actors[agentId].history.log| <= |Step(s, e).actors[agentId].history.log|
    ensures InStep(Step(s, e).actors[agentId].history, k) == InStep(s.actors[agentId].history, k)
  {
    hide Inv, Step, IsNext, Current, At;
    StepKeepsInv(s, e);
    HistoryBelongs(s, agentId);
    assert ActorGrew(s.actors[agentId], Step(s, e).actors[agentId]);
    AtUnchanged(s.actors[agentId].history, Step(s, e).actors[agentId].history, k);
  }

  /** Undisturbed, the latest subscription stays the latest, and what it is worth does not change. */
  lemma UndisturbedKeepsWorth(s: System, e: Event, agentId: AgentId, p: Progress)
    requires Inv(s) && Tracks(s, agentId, p) && p.Started? && Undisturbed(s, e, agentId, p)
    requires forall a :: a in s.actors ==> Genuine(s.actors[a].history)
    ensures var q := Progressed(s, e, agentId, p);
            && q.Started? && q.first == p.first
            && (Restoring(Step(s, e), agentId, q) <==> Restoring(s, agentId, p))
  {
    hide Inv, Step, Genuine, Answers, Disturbs, OnTheWay, At, InStep, Settled, Overtakes;
    FirstInLog(s, agentId, p);
    HistoryStays(s, e, agentId, p.first);
    if e.ServerEmits? && Overtakes(s.link, p.feed, s.laneCapacity) {
      OvertakingRestores(s, agentId, p);
      EmitsFrame(s, p.feed);
    }
  }

  lemma FirstInLog(s: System, agentId: AgentId, p: Progress)
    requires Tracks(s, agentId, p) && p.Started?
    ensures agentId in s.actors && p.first <= p.taken <= p.pushed <= |s.actors[agentId].history.log|
  {
    hide OnTheWay, ClientTracks, EmissionTracks;
  }

  lemma EmitsFrame(s: System, feed: nat)
    requires Overtakes(s.link, feed, s.laneCapacity) && forall a :: a in s.actors ==> Genuine(s.actors[a].history)
    ensures Step(s, ServerEmits) == s.(link := Emit(s.link, s.laneCapacity))
  {
    hide Genuine, Emit;
  }

  lemma {:induction false} UndisturbedRunKeepsWorth(s: System, p: Progress, events: seq<Event>, agentId: AgentId)
    requires Inv(s) && Tracks(s, agentId, p) && p.Started? && UndisturbedRun(s, p, events, agentId)
    ensures var q := ProgressAfter(s, p, events, agentId);
            && q.Started? && q.first == p.first
            && (Restoring(Run(s, events), agentId, q) <==> Restoring(s, agentId, p))
  {
    hide Inv, Step, Tracks, Progressed, Run, ProgressAfter, Restoring, UndisturbedRun, Undisturbed;
    if events == [] {
      NothingYet(s, p, agentId);
    } else {
      var before := events[..|events| - 1];
      UndisturbedBefore(s, p, events, agentId);
      UndisturbedRunKeepsWorth(s, p, before, agentId);
      RunKeepsTrack(s, p, before, agentId);
      LastOf(s, p, events, agentId);
      UndisturbedKeepsWorth(Run(s, before), events[|events| - 1], agentId, ProgressAfter(s, p, before, agentId));
    }
  }

  // ----- the answer reaches the client exactly when it fits -----

  /** Where the subscription stands right after the server has answered. */
  function Answered(s: System, agentId: AgentId): Progress
    requires Inv(s)
  {
    Progressed(s, ServerTakesRequest, agentId, NOTHING)
  }

  lemma AnsweredTracks(s: System, agentId: AgentId)
    requires Inv(s) && Answers(s, agentId) && forall a :: a in s.actors ==> Genuine(s.actors[a].history)
    ensures var after := Step(s, ServerTakesRequest);
            var p := Answered(s, agentId);
            && Tracks(after, agentId, p) && after.actors == s.actors && after.client == s.client
            && p == Started(s.link.nextFeed, OnTheWay(after.link, agentId), |s.actors[agentId].history.log|,
                      |s.actors[agentId].history.log|, |s.actors[agentId].history.log|, Settled(after.link, s.client, agentId))
            && (Restoring(after, agentId, p) <==> Fits(s, agentId))
  {
    hide Inv, Genuine, Step, Tracks, TakeRequest, Fits, OnTheWay, Settled, InStep;
    AnswerStep(s, agentId);
    AnswerTracks(s, agentId);
    StartLinesUp(s, agentId);
    AnswerRestoresExactlyWhen(s, agentId);
  }

  lemma StandsWhere(s: System, agentId: AgentId, p: Progress)
    requires Inv(s) && Tracks(s, agentId, p) && p.Started? && p.left == []
    ensures agentId in s.actors && p.first <= p.taken <= |s.actors[agentId].history.log|
    ensures ShareOf(s.client, agentId) == InStep(s.actors[agentId].history, p.taken) <==> Restoring(s, agentId, p)
  {
    hide Inv, Tracks, OnTheWay, ShareOf, InStep;
    TracksMeans(s, agentId, p);
    InStepExactlyWhen(s.actors[agentId].history, p.ends, p.first, p.taken);
  }

  /**
   * From every reachable state in which the server answers a subscription, whatever is still on its
   * way from older ones: anything undisturbed happens in any order. As soon as the last frame of the
   * start has been taken, and ever after, the client is unflagged and holds exactly the snapshot
   * reached by the live updates it has taken since the answer, if and only if the answer fitted.
   */
  lemma AnswerReachesClientExactlyWhen(laneCapacity: nat, before: seq<Event>, agentId: AgentId, events: seq<Event>)
    requires Answers(Run(Fresh(laneCapacity), before), agentId)
    requires UndisturbedRun(Run(Fresh(laneCapacity), before + [ServerTakesRequest]),
               Answered(Run(Fresh(laneCapacity), before), agentId), events, agentId)
    ensures var s := Run(Fresh(laneCapacity), before);
            var answered := Run(Fresh(laneCapacity), before + [ServerTakesRequest]);
            var after := Run(answered, events);
            var p := ProgressAfter(answered, Answered(s, agentId), events, agentId);
            && Genuine(s.actors[agentId].history)
            && p.Started? && p.first == |s.actors[agentId].history.log|
            && (p.left == [] ==>
                  && agentId in after.actors && p.first <= p.taken <= |after.actors[agentId].history.log|
                  && (ShareOf(after.client, agentId) == InStep(after.actors[agentId].history, p.taken)
                      <==> Fits(s, agentId)))
  {
    hide Inv, Step, Tracks, Progressed, Restoring, UndisturbedRun, Answered, Fits, ShareOf, InStep, Genuine, Answers;
    var s := Run(Fresh(laneCapacity), before);
    InvMeansGenuine(s);
    var longer := before + [ServerTakesRequest];
    assert longer[..|longer| - 1] == before;
    LastOf(Fresh(laneCapacity), NOTHING, longer, agentId);
    var answered := Run(Fresh(laneCapacity), longer);
    AnsweredTracks(s, agentId);
    AgentKnown(s, agentId);
    UndisturbedRunKeepsWorth(answered, Answered(s, agentId), events, agentId);
    RunKeepsTrack(answered, Answered(s, agentId), events, agentId);
    var p := ProgressAfter(answered, Answered(s, agentId), events, agentId);
    if p.left == [] {
      StandsWhere(Run(answered, events), agentId, p);
    }
  }

  /**
   * A client that asks again by itself, after a gap or a rejected update, is brought back whatever is
   * still on its way to it.
   */
  lemma OwnRepairRestores(
    laneCapacity: nat, before: seq<Event>, agentId: AgentId, client: Replica, frame: ServerFrame, events: seq<Event>)
    requires Answers(Run(Fresh(laneCapacity), before), agentId)
    requires Run(Fresh(laneCapacity), before).link.inbox[0] in Resubscriptions(client, frame)
    requires UndisturbedRun(Run(Fresh(laneCapacity), before + [ServerTakesRequest]),
               Answered(Run(Fresh(laneCapacity), before), agentId), events, agentId)
    ensures var answered := Run(Fresh(laneCapacity), before + [ServerTakesRequest]);
            var after := Run(answered, events);
            var p := ProgressAfter(answered, Answered(Run(Fresh(laneCapacity), before), agentId), events, agentId);
            p.Started? && p.left == [] ==>
              && agentId in after.actors && p.taken <= |after.actors[agentId].history.log|
              && ShareOf(after.client, agentId) == InStep(after.actors[agentId].history, p.taken)
  {
    hide Inv, Step, UndisturbedRun, Answered, Fits, ShareOf, InStep, Run, Resubscriptions, Genuine;
    AnswerReachesClientExactlyWhen(laneCapacity, before, agentId, events);
    OwnRepairAlwaysFits(Run(Fresh(laneCapacity), before), agentId, client, frame);
  }

  lemma AgentKnown(s: System, agentId: AgentId)
    requires Answers(s, agentId)
    ensures agentId in s.actors
  {
  }

  // ----- a client that asks with its own cursor -----

  /** The client asks for the agent again, or no longer wants it. */
  predicate AsksAgain(e: Event, agentId: AgentId) {
    (e.ClientSubscribes? || e.ClientUnsubscribes?) && e.agentId == agentId
  }

  /** The agent's only request on its way is the client's own, with the cursor it still has. */
  predicate Pending(s: System, agentId: AgentId) {
    agentId in s.actors && RequestsOf(s.link.inbox, agentId) == [Subscribe(agentId, Cursor(s.client, agentId))]
  }

  /** Waiting for the answer, or answered by a start that leaves the client in step. */
  predicate Served(s: System, agentId: AgentId, p: Progress, since: nat) {
    if p.Adrift? then Pending(s, agentId) && since <= |s.actors[agentId].history.log|
    else Restoring(s, agentId, p) && since <= p.first
  }

  /** With nothing else of the agent on its way, the answer to the client's own cursor fits. */
  lemma OwnCursorFits(s: System, agentId: AgentId)
    requires Inv(s) && Answers(s, agentId) && Quiet(s.link, agentId)
    requires s.link.inbox[0].cursor == Cursor(s.client, agentId)
    requires Genuine(s.actors[agentId].history)
    ensures Fits(s, agentId)
  {
    hide Inv, Genuine, At, Filter, InLanes;
    assert ReduceAll(s.client, []) == s.client;
    InvParts(s, agentId);
    if Cursor(s.client, agentId).Some? {
      ReplayIsFromHere(s.actors, s.client, agentId);
    }
  }

  lemma FirstRequest(inbox: seq<Request>, agentId: AgentId, request: Request)
    requires RequestsOf(inbox, agentId) == [request] && inbox != []
    ensures inbox[0].agentId == agentId ==> inbox[0] == request
    ensures inbox[0].agentId != agentId ==> RequestsOf(inbox[1..], agentId) == [request]
  {
    RequestsStep(inbox, agentId);
    hide RequestsOf;
    if inbox[0].agentId == agentId {
      assert ([inbox[0]] + RequestsOf(inbox[1..], agentId))[0] == inbox[0];
    } else {
      assert [] + RequestsOf(inbox[1..], agentId) == RequestsOf(inbox[1..], agentId);
    }
  }

  /** While the request waits, other requests come and go and the replica of the agent stays. */
  lemma PendingStays(s: System, e: Event, agentId: AgentId)
    requires Inv(s) && Quiet(s.link, agentId) && Pending(s, agentId)
    requires !e.ConnectionLost? && !AsksAgain(e, agentId) && !(e.ServerTakesRequest? && Answers(s, agentId))
    requires forall a :: a in s.actors ==> Genuine(s.actors[a].history)
    ensures Pending(Step(s, e), agentId)
  {
    hide Inv, Genuine, Quiet, Cursor, RequestsOf, Step;
    HistoryStays(s, e, agentId, 0);
    if e.ServerTakesRequest? {
      RequestKeepsPending(s, agentId);
    } else if e.ClientTakesFrame? {
      FrameKeepsPending(s, agentId);
    } else if e.ClientSubscribes? || e.ClientUnsubscribes? {
      OtherAsks(s, e, agentId);
    } else {
      SameInbox(s, e);
    }
  }

  lemma RequestKeepsPending(s: System, agentId: AgentId)
    requires Inv(s) && Pending(s, agentId) && !Answers(s, agentId)
    requires forall a :: a in s.actors ==> Genuine(s.actors[a].history)
    ensures Step(s, ServerTakesRequest).client == s.client
    ensures RequestsOf(Step(s, ServerTakesRequest).link.inbox, agentId) == RequestsOf(s.link.inbox, agentId)
  {
    hide Inv, Genuine, RequestsOf, Cursor, TakeRequest, OnTheWay;
    if s.link.inbox != [] && s.link.emission.None? {
      FirstRequest(s.link.inbox, agentId, Subscribe(agentId, Cursor(s.client, agentId)));
      ForeignRequest(s, agentId);
    }
  }

  lemma FrameKeepsPending(s: System, agentId: AgentId)
    requires Inv(s) && Quiet(s.link, agentId)
    requires forall a :: a in s.actors ==> Genuine(s.actors[a].history)
    ensures var after := Step(s, ClientTakesFrame);
            && Cursor(after.client, agentId) == Cursor(s.client, agentId)
            && RequestsOf(after.link.inbox, agentId) == RequestsOf(s.link.inbox, agentId)
  {
    hide Inv, Genuine, Quiet, RequestsOf, Cursor, Concerns, Reduce, Resubscriptions;
    if s.link.wire != [] {
      var again := Resubscriptions(s.client, s.link.wire[0]);
      WireKeepsQuiet(s.link, s.link.(wire := s.link.wire[1..], inbox := s.link.inbox + again), agentId);
      TakesElsewhere(s.client, s.link.wire[0], agentId);
      RequestsConcat(s.link.inbox, again, agentId);
      assert RequestsOf(s.link.inbox, agentId) + [] == RequestsOf(s.link.inbox, agentId);
    }
  }

  lemma OtherAsks(s: System, e: Event, agentId: AgentId)
    requires (e.ClientSubscribes? || e.ClientUnsubscribes?) && e.agentId != agentId
    requires forall a :: a in s.actors ==> Genuine(s.actors[a].history)
    ensures Step(s, e).client == s.client
    ensures RequestsOf(Step(s, e).link.inbox, agentId) == RequestsOf(s.link.inbox, agentId)
  {
    hide Genuine, RequestsOf, Cursor;
    var request := Step(s, e).link.inbox[|s.link.inbox|];
    RequestsPush(s.link.inbox, request, agentId);
    assert RequestsOf(s.link.inbox, agentId) + [] == RequestsOf(s.link.inbox, agentId);
  }

  lemma SameInbox(s: System, e: Event)
    requires !e.ConnectionLost? && !e.ServerTakesRequest? && !e.ClientTakesFrame?
    requires !e.ClientSubscribes? && !e.ClientUnsubscribes?
    requires forall a :: a in s.actors ==> Genuine(s.actors[a].history)
    ensures Step(s, e).client == s.client && Step(s, e).link.inbox == s.link.inbox
  {
    hide Genuine, Current, DeltaFor, EventFor;
  }

  lemma ServedStep(s: System, e: Event, agentId: AgentId, p: Progress, since: nat)
    requires Inv(s) && Tracks(s, agentId, p) && Served(s, agentId, p, since)
    requires Undisturbed(s, e, agentId, p) && !AsksAgain(e, agentId)
    requires forall a :: a in s.actors ==> Genuine(s.actors[a].history)
    ensures Served(Step(s, e), agentId, Progressed(s, e, agentId, p), since)
  {
    hide Inv, Genuine, Step, Undisturbed, Restoring, Quiet, Pending, AsksAgain, LinkTracks, ClientTracks;
    UndisturbedMeans(s, e, agentId, p);
    if p.Started? {
      hide Progressed;
      UndisturbedKeepsWorth(s, e, agentId, p);
      StillRestoring(s, e, agentId, p);
    } else {
      PendingMeans(s, agentId);
      HistoryStays(s, e, agentId, |s.actors[agentId].history.log|);
      if e.ServerTakesRequest? && Answers(s, agentId) {
        hide Progressed;
        FirstRequest(s.link.inbox, agentId, Subscribe(agentId, Cursor(s.client, agentId)));
        OwnCursorFits(s, agentId);
        AnsweredTracks(s, agentId);
        AnswerForgets(s, agentId, p);
      } else {
        PendingStays(s, e, agentId);
      }
    }
  }

  lemma UndisturbedMeans(s: System, e: Event, agentId: AgentId, p: Progress)
    requires Undisturbed(s, e, agentId, p)
    ensures !e.ConnectionLost?
  {
  }

  lemma PendingMeans(s: System, agentId: AgentId)
    requires Pending(s, agentId)
    ensures agentId in s.actors
    ensures RequestsOf(s.link.inbox, agentId) == [Subscribe(agentId, Cursor(s.client, agentId))]
  {
  }

  lemma StillRestoring(s: System, e: Event, agentId: AgentId, p: Progress)
    requires Inv(s) && Tracks(s, agentId, p) && p.Started? && Restoring(s, agentId, p)
    ensures p.first <= |s.actors[agentId].history.log|
  {
    hide Inv, Tracks, InStep;
  }

  /** An answer is the same wherever the subscription stood before. */
  lemma AnswerForgets(s: System, agentId: AgentId, p: Progress)
    requires Inv(s) && Answers(s, agentId)
    ensures Progressed(s, ServerTakesRequest, agentId, p) == Answered(s, agentId)
  {
    hide Inv, Step, Answers, OnTheWay, Settled;
  }

  lemma {:induction false} ServedRun(s: System, p: Progress, events: seq<Event>, agentId: AgentId, since: nat)
    requires Inv(s) && Tracks(s, agentId, p) && Served(s, agentId, p, since)
    requires UndisturbedRun(s, p, events, agentId) && forall e :: e in events ==> !AsksAgain(e, agentId)
    ensures Served(Run(s, events), agentId, ProgressAfter(s, p, events, agentId), since)
  {
    hide Inv, Step, Tracks, Progressed, Run, ProgressAfter, Served, UndisturbedRun, Undisturbed, AsksAgain;
    if events == [] {
      NothingYet(s, p, agentId);
    } else {
      var before := events[..|events| - 1];
      UndisturbedBefore(s, p, events, agentId);
      ServedRun(s, p, before, agentId, since);
      RunKeepsTrack(s, p, before, agentId);
      LastOf(s, p, events, agentId);
      ServedStep(Run(s, before), events[|events| - 1], agentId, ProgressAfter(s, p, before, agentId), since);
    }
  }

  lemma AskingServes(s: System, agentId: AgentId)
    requires Inv(s) && agentId in s.actors && Quiet(s.link, agentId) && RequestsOf(s.link.inbox, agentId) == []
    requires forall a :: a in s.actors ==> Genuine(s.actors[a].history)
    ensures var asked := Step(s, ClientSubscribes(agentId, true));
            var p := Adrift(ShareOf(s.client, agentId));
            && Tracks(asked, agentId, p) && Served(asked, agentId, p, |s.actors[agentId].history.log|)
            && asked.actors == s.actors && asked.client == s.client
  {
    hide Quiet, Cursor, Genuine, Inv, RequestsOf, ShareOf;
    var request := Subscribe(agentId, Cursor(s.client, agentId));
    RequestsPush(s.link.inbox, request, agentId);
    InboxKeepsQuiet(s.link, request, agentId);
  }

  /**
   * From every reachable state in which nothing of the agent is on its way: the client asks with the
   * cursor it has, and then anything undisturbed happens in any order, except that it asks for the
   * agent again. As soon as the last frame of the start has reached the client, and ever after, the
   * client is unflagged and holds a snapshot of the agent's history at or after the moment it asked,
   * the one reached by the live updates it has taken.
   */
  lemma StartSurvivesInterleaving(laneCapacity: nat, before: seq<Event>, agentId: AgentId, events: seq<Event>)
    requires agentId in Run(Fresh(laneCapacity), before).actors
    requires Quiet(Run(Fresh(laneCapacity), before).link, agentId)
    requires RequestsOf(Run(Fresh(laneCapacity), before).link.inbox, agentId) == []
    requires var asked := Run(Fresh(laneCapacity), before + [ClientSubscribes(agentId, true)]);
             UndisturbedRun(asked, Adrift(ShareOf(asked.client, agentId)), events, agentId)
    requires forall e :: e in events ==> !AsksAgain(e, agentId)
    ensures var asked := Run(Fresh(laneCapacity), before + [ClientSubscribes(agentId, true)]);
            var after := Run(asked, events);
            var p := ProgressAfter(asked, Adrift(ShareOf(asked.client, agentId)), events, agentId);
            p.Started? && p.left == [] ==>
              && agentId in after.actors && agentId in after.client.agents && agentId !in after.client.resyncRequired
              && p.taken <= |after.actors[agentId].history.log|
              && after.client.agents[agentId] == At(after.actors[agentId].history, p.taken)
              && after.client.agents[agentId].eventSequence >=
                 Current(Run(Fresh(laneCapacity), before).actors[agentId].history).eventSequence
  {
    hide Inv, Step, Quiet, At, Tracks, Restoring, UndisturbedRun, AsksAgain, RequestsOf, Pending;
    var s := Run(Fresh(laneCapacity), before);
    var e := ClientSubscribes(agentId, true);
    InvMeansGenuine(s);
    assert (before + [e])[..|before + [e]| - 1] == before;
    var asked := Run(Fresh(laneCapacity), before + [e]);
    assert asked == Step(s, e);
    AskingServes(s, agentId);
    var p0 := Adrift(ShareOf(asked.client, agentId));
    ServedRun(asked, p0, events, agentId, |s.actors[agentId].history.log|);
    RunKeepsTrack(asked, p0, events, agentId);
    ActorStays(asked, events, agentId);
    var after := Run(asked, events);
    var p := ProgressAfter(asked, p0, events, agentId);
    if p.Started? && p.left == [] {
      StandsWhere(after, agentId, p);
      HistoryBelongs(after, agentId);
      HistoryBelongs(s, agentId);
      CountersCount(after.actors[agentId].history, p.taken);
      CountersCount(s.actors[agentId].history, |s.actors[agentId].history.log|);
    }
  }

  /** An actor of a run stays, with the snapshot it started from. */
  lemma {:induction false} ActorStays(s: System, events: seq<Event>, agentId: AgentId)
    requires Inv(s) && agentId in s.actors
    ensures agentId in Run(s, events).actors
    ensures Run(s, events).actors[agentId].history.base == s.actors[agentId].history.base
  {
    if events != [] {
      hide Inv, Step;
      var before := events[..|events| - 1];
      ActorStays(s, before, agentId);
      InvMeansGenuine(Run(s, before));
      StepKeepsInv(Run(s, before), events[|events| - 1]);
    }
  }

  // ----- such runs exist -----

  lemma OneMore(s: System, p: Progress, events: seq<Event>, e: Event, agentId: AgentId)
    requires Inv(s) && UndisturbedRun(s, p, events, agentId)
    requires Undisturbed(Run(s, events), e, agentId, ProgressAfter(s, p, events, agentId))
    ensures forall a :: a in Run(s, events).actors ==> Genuine(Run(s, events).actors[a].history)
    ensures Run(s, events + [e]) == Step(Run(s, events), e)
    ensures ProgressAfter(s, p, events + [e], agentId) ==
            Progressed(Run(s, events), e, agentId, ProgressAfter(s, p, events, agentId))
    ensures UndisturbedRun(s, p, events + [e], agentId)
  {
    hide Inv, Step, Progressed, Undisturbed, Genuine;
    InvMeansGenuine(Run(s, events));
    var longer := events + [e];
    assert longer[..|longer| - 1] == events;
    forall i | 0 <= i < |longer| ensures UndisturbedAt(s, p, longer, agentId, i) {
      if i < |events| {
        assert longer[..i] == events[..i];
        assert UndisturbedAt(s, p, events, agentId, i);
      } else {
        assert longer[..i] == events;
      }
    }
  }

  /** Waiting for the answer on a link that carries nothing, with a replica that knows nothing. */
  predicate JustAsked(s: System, agentId: AgentId) {
    && agentId in s.actors && s.laneCapacity > 0
    && s.link == NO_LINK.(inbox := [Subscribe(agentId, None)])
    && s.client == Replica(map[], {})
  }

  /** From there, four undisturbed steps bring the whole start to the client. */
  lemma StartCanFinish(s: System, agentId: AgentId)
    requires Inv(s) && JustAsked(s, agentId)
    ensures var events := [ServerTakesRequest, ServerEmits, WriterSends, ClientTakesFrame];
            && UndisturbedRun(s, NOTHING, events, agentId)
            && ProgressAfter(s, NOTHING, events, agentId).Started? && ProgressAfter(s, NOTHING, events, agentId).left == []
  {
    hide Inv, Genuine, At, Step, Progressed, Run, ProgressAfter, UndisturbedRun, Concerns, CutsStart, Undisturbed;
    InvMeansGenuine(s);
    NothingYet(s, NOTHING, agentId);
    assert UndisturbedRun(s, NOTHING, [], agentId) by { NoneDisturbed(s, NOTHING, agentId); }
    var snapshot := Current(s.actors[agentId].history);
    HistoryBelongs(s, agentId);
    CurrentIsPast(s.actors[agentId].history);
    var frame := SnapshotFrame([snapshot]);
    var e0, e1, e2, e3 := ServerTakesRequest, ServerEmits, WriterSends, ClientTakesFrame;
    EasilyUndisturbed(s, e0, agentId, NOTHING);
    OneMore(s, NOTHING, [], e0, agentId);
    assert [] + [e0] == [e0];
    TakesAsked(s, agentId);
    var s1 := Run(s, [e0]);
    EasilyUndisturbed(s1, e1, agentId, ProgressAfter(s, NOTHING, [e0], agentId));
    OneMore(s, NOTHING, [e0], e1, agentId);
    assert [e0] + [e1] == [e0, e1];
    EmitsAsked(s1, frame);
    var s2 := Run(s, [e0, e1]);
    EasilyUndisturbed(s2, e2, agentId, ProgressAfter(s, NOTHING, [e0, e1], agentId));
    OneMore(s, NOTHING, [e0, e1], e2, agentId);
    assert [e0, e1] + [e2] == [e0, e1, e2];
    WritesAsked(s2, frame);
    var s3 := Run(s, [e0, e1, e2]);
    EasilyUndisturbed(s3, e3, agentId, ProgressAfter(s, NOTHING, [e0, e1, e2], agentId));
    OneMore(s, NOTHING, [e0, e1, e2], e3, agentId);
    assert [e0, e1, e2] + [e3] == [e0, e1, e2, e3];
    KeepsProgress(s1, e1, agentId, ProgressAfter(s, NOTHING, [e0], agentId));
    KeepsProgress(s2, e2, agentId, ProgressAfter(s, NOTHING, [e0, e1], agentId));
    FinishesAsked(s3, agentId, ProgressAfter(s, NOTHING, [e0, e1, e2], agentId), frame);
  }

  lemma NoneDisturbed(s: System, p: Progress, agentId: AgentId)
    requires Inv(s)
    ensures UndisturbedRun(s, p, [], agentId)
  {
  }

  /** Steps that disturb nothing: an empty state lane has room, and nothing waits behind an answer. */
  lemma EasilyUndisturbed(s: System, e: Event, agentId: AgentId, p: Progress)
    requires e.ServerTakesRequest? ==> p.Adrift?
    requires e.ServerEmits? ==> s.link.state == [] && s.laneCapacity > 0
    requires e.ServerTakesRequest? || e.ServerEmits? || e.WriterSends? || e.ClientTakesFrame?
    ensures Undisturbed(s, e, agentId, p)
  {
    hide OnTheWay;
  }

  lemma TakesAsked(s: System, agentId: AgentId)
    requires Inv(s) && JustAsked(s, agentId) && forall a :: a in s.actors ==> Genuine(s.actors[a].history)
    ensures var after := Step(s, ServerTakesRequest);
            var frame := SnapshotFrame([Current(s.actors[agentId].history)]);
            && after.link.emission.Some? && Remaining(after.link) == [LaneSend(StateLane, frame)]
            && after.link.control == [] && after.link.response == [] && after.link.state == [] && after.link.wire == []
            && after.laneCapacity == s.laneCapacity
    ensures var p := Progressed(s, ServerTakesRequest, agentId, NOTHING);
            p.Started? && p.left == [SnapshotFrame([Current(s.actors[agentId].history)])]
  {
    hide Genuine, At, Inv, Settled, ConcernsOnly;
    AnsweredTracks(s, agentId);
    StartLinesUp(s, agentId);
    AnswerStep(s, agentId);
    EmptyFilter(agentId);
    assert InLanes(s.link, agentId) == [];
    assert FramesIn([]) == [];
    assert FramesIn([LaneSend(StateLane, SnapshotFrame([Current(s.actors[agentId].history)]))])
        == [SnapshotFrame([Current(s.actors[agentId].history)])];
  }

  lemma EmitsAsked(s: System, frame: ServerFrame)
    requires s.link.emission.Some? && Remaining(s.link) == [LaneSend(StateLane, frame)] && s.laneCapacity > 0
    requires s.link.control == [] && s.link.response == [] && s.link.state == [] && s.link.wire == []
    requires forall a :: a in s.actors ==> Genuine(s.actors[a].history)
    ensures var after := Step(s, ServerEmits).link;
            after.control == [] && after.response == [] && after.state == [frame] && after.wire == []
  {
    hide Genuine;
  }

  lemma WritesAsked(s: System, frame: ServerFrame)
    requires s.link.control == [] && s.link.response == [] && s.link.state == [frame] && s.link.wire == []
    requires forall a :: a in s.actors ==> Genuine(s.actors[a].history)
    ensures Step(s, WriterSends).link.wire == [frame]
  {
    hide Genuine;
  }

  lemma KeepsProgress(s: System, e: Event, agentId: AgentId, p: Progress)
    requires Inv(s) && p.Started? && (e.ServerEmits? || e.WriterSends?)
    requires e.ServerEmits? ==> s.link.state == [] && s.laneCapacity > 0
    requires e.ServerEmits? && Remaining(s.link) != [] ==> Remaining(s.link)[0].lane == StateLane
    ensures Progressed(s, e, agentId, p) == p
  {
    hide Inv, Step, Settled, OnTheWay;
  }

  lemma FinishesAsked(s: System, agentId: AgentId, p: Progress, frame: ServerFrame)
    requires Inv(s) && s.link.wire == [frame] && p.Started? && p.left == [frame] && ConcernsOnly(frame, agentId)
    ensures Progressed(s, ClientTakesFrame, agentId, p).Started?
    ensures Progressed(s, ClientTakesFrame, agentId, p).left == []
  {
    hide Inv, Step, Concerns, ConcernsOnly;
    OnlyOne(frame, agentId, agentId);
  }

  // ----- a start that is cut -----

  /** Exactly when a start is cut: its next frame goes to a full state lane; then the rest is abandoned with it. */
  lemma StartIsCutExactlyWhen(link: Link, capacity: nat)
    requires link.emission.Some? && Remaining(link) != []
    ensures CutsStart(link, link.emission.value.feed, capacity) <==>
            && Emit(link, capacity).emission == Some(Emission(link.emission.value.feed, []))
            && Emit(link, capacity).control == link.control && Emit(link, capacity).state == link.state
  {
  }

  /**
   * A hole is caught: an update that skips what the client has not seen is rejected, flags the agent
   * and makes the client ask again.
   */
  lemma HoleIsCaught(h: History, r: Replica, held: nat, next: nat)
    requires Genuine(h) && held < next < |h.log|
    requires ShareOf(r, h.base.agentId) == Share(Some(At(h, held)), false)
    ensures var frame := FrameOf(h.log[next]);
            && OutcomeOf(r, frame).Err?
            && ShareOf(Reduce(r, frame), h.base.agentId) == Share(Some(At(h, held)), true)
            && Resubscriptions(r, frame) == [Subscribe(h.base.agentId, None)]
  {
    hide Genuine, At, Advance, ApplyDelta, IsRecorded;
    CountersCount(h, held);
    CountersCount(h, next);
    LogIsRecorded(h, next);
    FrameCarriesUpdate(h.log[next]);
    RecordedSequence(h, next);
  }

  lemma CutLeavesLanes(link: Link, capacity: nat, agentId: AgentId)
    requires link.emission.Some? && CutsStart(link, link.emission.value.feed, capacity)
    ensures Remaining(Emit(link, capacity)) == []
    ensures OnTheWay(Emit(link, capacity), agentId) == InLanes(link, agentId)
  {
    hide Filter;
    EmptyFilter(agentId);
    assert FramesIn([]) == [];
    LanesOnly(link, Emit(link, capacity), agentId);
    assert InLanes(link, agentId) + [] == InLanes(link, agentId);
  }

  /** The share does not reach the position from which live updates follow. */
  predicate LeftBehind(share: Share, h: History, first: nat)
    requires first <= |h.log|
  {
    share.flagged || share.held.None? || share.held.value.eventSequence < At(h, first).eventSequence
  }

  lemma CutRestarts(s: System, agentId: AgentId, p: Progress)
    requires Inv(s) && Tracks(s, agentId, p) && p.Started? && CutsStart(s.link, p.feed, s.laneCapacity)
    requires forall a :: a in s.actors ==> Genuine(s.actors[a].history)
    ensures var cut := Step(s, ServerEmits);
            && cut.actors == s.actors && cut.client == s.client && Remaining(cut.link) == []
            && OnTheWay(cut.link, agentId) == InLanes(s.link, agentId)
            && Tracks(cut, agentId, Restart(cut, agentId, p.feed, p.first))
            && Progressed(s, ServerEmits, agentId, p) == Restart(cut, agentId, p.feed, p.first)
  {
    hide Inv, Genuine, Tracks, Emit, OnTheWay, Settled;
    FirstWhileEmitting(s, agentId, p);
    CutLeavesLanes(s.link, s.laneCapacity, agentId);
    StepKeepsTrack(s, ServerEmits, agentId, p);
  }

  lemma FirstWhileEmitting(s: System, agentId: AgentId, p: Progress)
    requires Tracks(s, agentId, p) && p.Started? && s.link.emission.Some? && s.link.emission.value.feed == p.feed
    ensures agentId in s.actors && p.pushed == p.first == p.taken <= |s.actors[agentId].history.log|
    ensures RestOfStart(Remaining(s.link), s.actors[agentId].history, p.first)
    ensures p.left == OnTheWay(s.link, agentId) && p.ends == Settled(s.link, s.client, agentId)
  {
    hide OnTheWay, OwnFeed, RestOfStart, ReduceAll, ShareOf;
    assert LogFrames(s.actors[agentId].history.log, p.first, p.first) == [];
    assert p.left + [] == p.left;
  }

  /** A replay that would have restored the client and is cut brings it exactly to the cut. */
  lemma CutReplayReaches(s: System, agentId: AgentId, p: Progress)
    requires Inv(s) && Tracks(s, agentId, p) && p.Started? && CutsStart(s.link, p.feed, s.laneCapacity)
    requires Restoring(s, agentId, p) && UpdateIn(Remaining(s.link)[0].frame).Some?
    requires forall a :: a in s.actors ==> Genuine(s.actors[a].history)
    ensures var h := s.actors[agentId].history;
            var cut := Step(s, ServerEmits);
            && 0 < |Remaining(s.link)| <= p.first <= |h.log|
            && Settled(cut.link, cut.client, agentId) == InStep(h, p.first - |Remaining(s.link)|)
            && LeftBehind(Settled(cut.link, cut.client, agentId), h, p.first)
  {
    hide Inv, Genuine, Tracks, Step, OnTheWay, At, ReduceAll, ShareOf, InLanes, HoldsPast, AllGenuine, LogFrames, FramesOf, Follow;
    var h := s.actors[agentId].history;
    var sends := Remaining(s.link);
    var cut := Step(s, ServerEmits);
    HistoryBelongs(s, agentId);
    FirstWhileEmitting(s, agentId, p);
    CutRestarts(s, agentId, p);
    StepKeepsInv(s, ServerEmits);
    RestIsReplay(s.link, h, p.first);
    OnTheWayGenuine(cut, agentId);
    WillHoldPast(cut, OnTheWay(cut.link, agentId), agentId);
    var j := p.first - |sends|;
    var lanes := InLanes(s.link, agentId);
    ReduceAllConcat(s.client, lanes, LogFrames(h.log, j, p.first));
    FollowsLog(h, j, p.first, ReduceAll(s.client, lanes));
    InStepExactlyWhen(h, ShareOf(ReduceAll(s.client, lanes), agentId), j, p.first);
    CountersCount(h, j);
    CountersCount(h, p.first);
  }

  lemma RestIsReplay(link: Link, h: History, first: nat)
    requires Genuine(h) && first <= |h.log| && RestOfStart(Remaining(link), h, first)
    requires Remaining(link) != [] && Remaining(link)[0].lane == StateLane && UpdateIn(Remaining(link)[0].frame).Some?
    ensures |Remaining(link)| <= first
    ensures OnTheWay(link, h.base.agentId)
            == InLanes(link, h.base.agentId) + LogFrames(h.log, first - |Remaining(link)|, first)
  {
    hide Genuine, At, InLanes, Concerns, Filter, FrameOf, ConcernsOnly;
    var sends := Remaining(link);
    var j := first - |sends|;
    assert sends == FramesOf(h.log[j..first]);
    assert FramesIn(sends) == LogFrames(h.log, j, first);
    forall i | 0 <= i < |FramesIn(sends)| ensures Concerns(FramesIn(sends)[i], h.base.agentId) {
      LogIsRecorded(h, j + i);
      UpdateConcerns(h.log[j + i], h.base.agentId);
    }
    FilterAll(FramesIn(sends), h.base.agentId);
  }

  // ----- a gap can only flag -----

  lemma {:induction false} InstallNamed(x: Replica, y: Replica, agents: seq<AgentSnapshot>, agentId: AgentId)
    requires exists i :: 0 <= i < |agents| && agents[i].agentId == agentId
    ensures ShareOf(Install(x, agents), agentId) == ShareOf(Install(y, agents), agentId)
  {
    var k := |agents| - 1;
    if agents[k].agentId != agentId {
      var i :| 0 <= i < |agents| && agents[i].agentId == agentId;
      assert agents[..k][i] == agents[i];
      InstallNamed(x, y, agents[..k], agentId);
    }
  }

  /** Two clients that agree on an agent, or of which the second has it flagged, still do after the same frames. */
  lemma {:induction false} SameOrFlagged(x: Replica, y: Replica, frames: seq<ServerFrame>, agentId: AgentId)
    requires ShareOf(y, agentId) == ShareOf(x, agentId) || ShareOf(y, agentId).flagged
    ensures var after := ShareOf(ReduceAll(y, frames), agentId);
            after == ShareOf(ReduceAll(x, frames), agentId) || after.flagged
    decreases |frames|
  {
    hide Reduce, ShareOf;
    if frames != [] {
      SameOrFlaggedStep(x, y, frames[0], agentId);
      SameOrFlagged(Reduce(x, frames[0]), Reduce(y, frames[0]), frames[1..], agentId);
    }
  }

  lemma SameOrFlaggedStep(x: Replica, y: Replica, frame: ServerFrame, agentId: AgentId)
    requires ShareOf(y, agentId) == ShareOf(x, agentId) || ShareOf(y, agentId).flagged
    ensures var after := ShareOf(Reduce(y, frame), agentId);
            after == ShareOf(Reduce(x, frame), agentId) || after.flagged
  {
    if ShareOf(y, agentId) == ShareOf(x, agentId) {
      ReduceIsLocal(x, y, frame, agentId);
    } else if Names(frame, agentId) {
      InstallNamed(x, y, frame.agents, agentId);
    } else {
      hide Reduce;
      FrozenStep(y, frame, agentId);
    }
  }

  /** A gap on the control lane, ahead of what waits in the slower lanes. */
  lemma GapOnlyFlags(link: Link, after: Link, client: Replica, gap: ServerFrame, agentId: AgentId)
    requires gap.ReplayGap? && gap.agentId == agentId
    requires after == link.(control := link.control + [gap], feeds := after.feeds)
    ensures var share := Settled(after, client, agentId);
            share == Settled(link, client, agentId) || share.flagged
  {
    hide Filter, Reduce, ReduceAll, ShareOf;
    var ahead := Filter(link.wire, agentId) + Filter(link.control, agentId);
    var behind := Filter(link.response, agentId) + Filter(link.state, agentId) + Filter(FramesIn(Remaining(link)), agentId);
    FilterPush(link.control, gap, agentId);
    assert OnTheWay(link, agentId) == ahead + behind;
    assert OnTheWay(after, agentId) == ahead + [gap] + behind;
    ReduceAllConcat(client, ahead, behind);
    ReduceAllConcat(client, ahead + [gap], behind);
    ReduceAllConcat(client, ahead, [gap]);
    GapFlags(ReduceAll(client, ahead), gap);
    SameOrFlagged(ReduceAll(client, ahead), ReduceAll(client, ahead + [gap]), behind, agentId);
  }

  lemma GapFlags(r: Replica, gap: ServerFrame)
    requires gap.ReplayGap?
    ensures ShareOf(ReduceAll(r, [gap]), gap.agentId).flagged
  {
    assert ReduceAll(r, [gap]) == ReduceAll(Reduce(r, gap), []);
  }

  // ----- nothing but a new answer closes the hole -----

  /**
   * Anything may happen, except: a subscription to the agent is answered, the queue of an older one
   * pushes an update, or the connection is lost before the client has taken what it was sent of the start.
   */
  predicate Unanswered(s: System, e: Event, agentId: AgentId, p: Progress) {
    && !(e.ServerTakesRequest? && Answers(s, agentId))
    && (p.Started? ==> !OlderPushes(s, e, agentId, p.feed) && (e.ConnectionLost? ==> p.left == []))
  }

  predicate UnansweredAt(s: System, p: Progress, events: seq<Event>, agentId: AgentId, i: nat)
    requires Inv(s) && i < |events|
  {
    Unanswered(Run(s, events[..i]), events[i], agentId, ProgressAfter(s, p, events[..i], agentId))
  }

  predicate UnansweredRun(s: System, p: Progress, events: seq<Event>, agentId: AgentId)
    requires Inv(s)
  {
    forall i :: 0 <= i < |events| ==> UnansweredAt(s, p, events, agentId, i)
  }

  predicate Stuck(s: System, agentId: AgentId, p: Progress, reached: Share) {
    if p.Adrift? then p.share == reached || p.share.flagged
    else
      && (p.ends == reached || p.ends.flagged)
      && agentId in s.actors && p.first <= |s.actors[agentId].history.log|
      && LeftBehind(p.ends, s.actors[agentId].history, p.first)
      && NothingToEmit(s.link, p.feed)
  }

  /** Nothing of this feed's start is still to be emitted. */
  predicate NothingToEmit(link: Link, feed: nat) {
    link.emission.Some? && link.emission.value.feed == feed ==> Remaining(link) == []
  }

  lemma EmissionStays(s: System, e: Event)
    requires !e.ServerEmits? && !e.ServerTakesRequest? && !e.ConnectionLost?
    requires forall a :: a in s.actors ==> Genuine(s.actors[a].history)
    ensures Step(s, e).link.emission == s.link.emission
  {
    hide Genuine, Current, DeltaFor, EventFor, Reduce, Resubscriptions, Cursor;
  }

  lemma NothingMoreToEmit(s: System, e: Event, agentId: AgentId, feed: nat)
    requires Inv(s) && feed < s.link.nextFeed && NothingToEmit(s.link, feed)
    requires !e.ConnectionLost? && !(e.ServerTakesRequest? && Answers(s, agentId))
    requires forall a :: a in s.actors ==> Genuine(s.actors[a].history)
    ensures NothingToEmit(Step(s, e).link, feed)
  {
    hide Inv, Genuine, TakeRequest, Answers, OnTheWay, Current, Filter;
    if e.ServerTakesRequest? {
      if s.link.inbox != [] && s.link.emission.None? {
        ForeignRequest(s, agentId);
      }
    } else if !e.ServerEmits? {
      EmissionStays(s, e);
    }
  }

  /** Where the client will be once everything on its way has arrived, the live updates included. */
  lemma WillSettle(s: System, agentId: AgentId, p: Progress)
    requires Inv(s) && Tracks(s, agentId, p) && p.Started?
    ensures agentId in s.actors && p.first <= p.pushed <= |s.actors[agentId].history.log|
    ensures Settled(s.link, s.client, agentId) == Follow(s.actors[agentId].history, p.ends, p.first, p.pushed)
  {
    hide Inv, OnTheWay, At, ReduceAll, ShareOf, HoldsPast, AllGenuine, LogFrames, Bookkept, Genuine;
    FirstInLog(s, agentId, p);
    var h := s.actors[agentId].history;
    HistoryBelongs(s, agentId);
    OnTheWayGenuine(s, agentId);
    PrefixGenuine(s.actors, p.left, LogFrames(h.log, p.taken, p.pushed));
    WillHoldPast(s, p.left, agentId);
    ReduceAllConcat(s.client, p.left, LogFrames(h.log, p.taken, p.pushed));
    FollowsLog(h, p.taken, p.pushed, ReduceAll(s.client, p.left));
    FollowOn(h, p.ends, p.first, p.taken, p.pushed);
  }

  lemma PrefixGenuine(actors: map<AgentId, Actor>, x: seq<ServerFrame>, y: seq<ServerFrame>)
    requires AllGenuine(actors, x + y)
    ensures AllGenuine(actors, x)
  {
    hide GenuineFrame;
    forall i | 0 <= i < |x| ensures GenuineFrame(actors, x[i]) {
      assert (x + y)[i] == x[i];
    }
  }

  lemma FollowOn(h: History, share: Share, from: nat, mid: nat, upto: nat)
    requires Genuine(h) && from <= mid <= upto <= |h.log|
    ensures Follow(h, Follow(h, share, from, mid), mid, upto) == Follow(h, share, from, upto)
  {
    hide At, Genuine;
  }

  lemma BehindIsOut(h: History, share: Share, first: nat, later: nat)
    requires Genuine(h) && first <= later <= |h.log| && LeftBehind(share, h, first)
    ensures Follow(h, share, first, later) == share || Follow(h, share, first, later).flagged
    ensures LeftBehind(Follow(h, share, first, later), h, later)
  {
    hide At, Genuine;
    CountersCount(h, first);
    CountersCount(h, later);
  }

  lemma StuckLoss(s: System, agentId: AgentId, p: Progress, reached: Share)
    requires Inv(s) && Tracks(s, agentId, p) && Stuck(s, agentId, p, reached)
    requires Unanswered(s, ConnectionLost, agentId, p)
    ensures ShareOf(s.client, agentId) == reached || ShareOf(s.client, agentId).flagged
  {
    hide Inv, Tracks, OnTheWay, ShareOf, LeftBehind, Answers;
    TracksMeans(s, agentId, p);
    if p.Started? {
      HistoryBelongs(s, agentId);
      BehindIsOut(s.actors[agentId].history, p.ends, p.first, p.taken);
    }
  }

  lemma StuckGap(s: System, e: Event, agentId: AgentId, p: Progress, reached: Share)
    requires Inv(s) && Tracks(s, agentId, p) && p.Started? && Stuck(s, agentId, p, reached) && SendsGapOf(s, e, agentId)
    requires forall a :: a in s.actors ==> Genuine(s.actors[a].history)
    ensures var after := Step(s, e);
            && p.pushed <= |s.actors[agentId].history.log| && after.actors == s.actors && after.client == s.client
            && var share := Settled(after.link, after.client, agentId);
            && (share == reached || share.flagged)
            && LeftBehind(share, s.actors[agentId].history, p.pushed)
  {
    hide Inv, Tracks, OnTheWay, ShareOf, Genuine, Settled, NothingToEmit, LeftBehind;
    WillSettle(s, agentId, p);
    HistoryBelongs(s, agentId);
    var h := s.actors[agentId].history;
    BehindIsOut(h, p.ends, p.first, p.pushed);
    FeedOfInv(s, e.feed);
    FeedFront(s.actors, s.link.feeds[e.feed]);
    SendsOrNot(s, e, agentId);
    var share := Settled(Step(s, e).link, s.client, agentId);
    if share.flagged {
      FlaggedIsBehind(share, h, p.pushed);
    }
  }

  lemma FlaggedIsBehind(share: Share, h: History, first: nat)
    requires share.flagged && first <= |h.log|
    ensures LeftBehind(share, h, first)
  {
    hide At;
  }

  lemma SendsOrNot(s: System, e: Event, agentId: AgentId)
    requires SendsGapOf(s, e, agentId)
    requires s.link.feeds[e.feed].gap.Sending? ==> s.link.feeds[e.feed].gap.snapshot.agentId == agentId
    requires forall a :: a in s.actors ==> Genuine(s.actors[a].history)
    ensures Step(s, e).actors == s.actors && Step(s, e).client == s.client
    ensures var share := Settled(Step(s, e).link, s.client, agentId);
            share == Settled(s.link, s.client, agentId) || share.flagged
  {
    hide Settled, Genuine;
    var after := Step(s, e).link;
    if after != s.link {
      var snapshot := s.link.feeds[e.feed].gap.snapshot;
      GapOnlyFlags(s.link, after, s.client,
        ReplayGap(snapshot.agentId, snapshot.revision, snapshot.eventSequence, SlowConsumer), agentId);
    }
  }

  lemma BehindStays(s: System, e: Event, agentId: AgentId, share: Share, first: nat)
    requires Inv(s) && agentId in s.actors && first <= |s.actors[agentId].history.log|
    requires forall a :: a in s.actors ==> Genuine(s.actors[a].history)
    requires LeftBehind(share, s.actors[agentId].history, first)
    ensures agentId in Step(s, e).actors && first <= |Step(s, e).actors[agentId].history.log|
    ensures LeftBehind(share, Step(s, e).actors[agentId].history, first)
  {
    hide Inv, Step, At, Genuine;
    HistoryStays(s, e, agentId, first);
  }

  lemma StuckStep(s: System, e: Event, agentId: AgentId, p: Progress, reached: Share)
    requires Inv(s) && Tracks(s, agentId, p) && Stuck(s, agentId, p, reached) && Unanswered(s, e, agentId, p)
    requires forall a :: a in s.actors ==> Genuine(s.actors[a].history)
    ensures Stuck(Step(s, e), agentId, Progressed(s, e, agentId, p), reached)
  {
    hide Inv, Genuine, Step, Tracks, Answers, LeftBehind, Settled, ShareOf, OnTheWay, NothingToEmit, SendsGapOf;
    if e.ConnectionLost? {
      StuckLoss(s, agentId, p, reached);
    } else if p.Started? {
      FirstInLog(s, agentId, p);
      FeedInUse(s, agentId, p);
      NothingMoreToEmit(s, e, agentId, p.feed);
      NeitherCutNorOvertaken(s.link, p.feed, s.laneCapacity);
      if SendsGapOf(s, e, agentId) {
        StuckGap(s, e, agentId, p, reached);
      } else {
        BehindStays(s, e, agentId, p.ends, p.first);
      }
    }
  }

  lemma FeedInUse(s: System, agentId: AgentId, p: Progress)
    requires Tracks(s, agentId, p) && p.Started?
    ensures p.feed < s.link.nextFeed
  {
    hide OnTheWay, ClientTracks, EmissionTracks, OwnFeed;
  }

  lemma NeitherCutNorOvertaken(link: Link, feed: nat, capacity: nat)
    requires NothingToEmit(link, feed)
    ensures !CutsStart(link, feed, capacity) && !Overtakes(link, feed, capacity)
  {
  }

  lemma UnansweredBefore(s: System, p: Progress, events: seq<Event>, agentId: AgentId)
    requires Inv(s) && UnansweredRun(s, p, events, agentId) && events != []
    ensures var before := events[..|events| - 1];
            && UnansweredRun(s, p, before, agentId)
            && Unanswered(Run(s, before), events[|events| - 1], agentId, ProgressAfter(s, p, before, agentId))
  {
    hide Inv, Unanswered, Run, ProgressAfter;
    var before := events[..|events| - 1];
    forall i | 0 <= i < |before| ensures UnansweredAt(s, p, before, agentId, i) {
      assert before[..i] == events[..i];
      assert UnansweredAt(s, p, events, agentId, i);
    }
    assert UnansweredAt(s, p, events, agentId, |events| - 1);
  }

  lemma {:induction false} StuckRun(s: System, p: Progress, events: seq<Event>, agentId: AgentId, reached: Share)
    requires Inv(s) && Tracks(s, agentId, p) && Stuck(s, agentId, p, reached) && UnansweredRun(s, p, events, agentId)
    ensures Stuck(Run(s, events), agentId, ProgressAfter(s, p, events, agentId), reached)
  {
    hide Inv, Step, Tracks, Progressed, Run, ProgressAfter, Stuck, UnansweredRun, Unanswered;
    if events == [] {
      NothingYet(s, p, agentId);
    } else {
      var before := events[..|events| - 1];
      UnansweredBefore(s, p, events, agentId);
      StuckRun(s, p, before, agentId, reached);
      RunKeepsTrack(s, p, before, agentId);
      LastOf(s, p, events, agentId);
      StuckStep(Run(s, before), events[|events| - 1], agentId, ProgressAfter(s, p, before, agentId), reached);
    }
  }

  /**
   * The client is where the cut left it, or flagged, unless frames from before the cut are still on
   * their way to it.
   */
  predicate CaughtAt(s: System, agentId: AgentId, p: Progress, reached: Share) {
    p.Adrift? || p.left == [] ==> ShareOf(s.client, agentId) == reached || ShareOf(s.client, agentId).flagged
  }

  lemma StuckIsCaught(s: System, agentId: AgentId, p: Progress, reached: Share)
    requires Inv(s) && Tracks(s, agentId, p) && Stuck(s, agentId, p, reached)
    ensures CaughtAt(s, agentId, p, reached)
  {
    hide Inv, Tracks, OnTheWay, ShareOf, LeftBehind;
    TracksMeans(s, agentId, p);
    if p.Started? && p.left == [] {
      HistoryBelongs(s, agentId);
      BehindIsOut(s.actors[agentId].history, p.ends, p.first, p.taken);
    }
  }

  /** The subscription's progress from the start of a run. */
  function ProgressOf(laneCapacity: nat, events: seq<Event>, agentId: AgentId): Progress {
    ProgressAfter(Fresh(laneCapacity), NOTHING, events, agentId)
  }

  lemma ProgressTracks(laneCapacity: nat, events: seq<Event>, agentId: AgentId)
    ensures Tracks(Run(Fresh(laneCapacity), events), agentId, ProgressOf(laneCapacity, events, agentId))
  {
    hide Inv, Step, Tracks;
    FreshTracks(laneCapacity, agentId);
    RunKeepsTrack(Fresh(laneCapacity), NOTHING, events, agentId);
  }

  /**
   * From every reachable state in which a start is cut and leaves the client behind: over every later
   * run, with live updates, gaps, other agents and lost connections, a client that has taken what was
   * sent of the start is exactly where the cut left it, or flagged, until another answer comes.
   */
  lemma CutStartIsCaught(laneCapacity: nat, before: seq<Event>, agentId: AgentId, events: seq<Event>)
    requires var s := Run(Fresh(laneCapacity), before);
             var p := ProgressOf(laneCapacity, before, agentId);
             var cut := Run(Fresh(laneCapacity), before + [ServerEmits]);
             && p.Started? && CutsStart(s.link, p.feed, laneCapacity)
             && agentId in s.actors && p.first <= |s.actors[agentId].history.log|
             && LeftBehind(Settled(cut.link, cut.client, agentId), s.actors[agentId].history, p.first)
             && UnansweredRun(cut, ProgressOf(laneCapacity, before + [ServerEmits], agentId), events, agentId)
    ensures var cut := Run(Fresh(laneCapacity), before + [ServerEmits]);
            CaughtAt(Run(cut, events), agentId,
              ProgressAfter(cut, ProgressOf(laneCapacity, before + [ServerEmits], agentId), events, agentId),
              Settled(cut.link, cut.client, agentId))
  {
    hide Inv, Step, Tracks, Progressed, Run, ProgressAfter, Stuck, UnansweredRun, CaughtAt, LeftBehind, Settled;
    var s := Run(Fresh(laneCapacity), before);
    var cut := Run(Fresh(laneCapacity), before + [ServerEmits]);
    var q := ProgressOf(laneCapacity, before + [ServerEmits], agentId);
    var reached := Settled(cut.link, cut.client, agentId);
    assert (before + [ServerEmits])[..|before + [ServerEmits]| - 1] == before;
    LastOf(Fresh(laneCapacity), NOTHING, before + [ServerEmits], agentId);
    ProgressTracks(laneCapacity, before, agentId);
    CapacityStays(laneCapacity, before);
    CutRestarts(s, agentId, ProgressOf(laneCapacity, before, agentId));
    CutIsStuck(cut, agentId, q);
    StuckRun(cut, q, events, agentId, reached);
    RunKeepsTrack(cut, q, events, agentId);
    StuckIsCaught(Run(cut, events), agentId, ProgressAfter(cut, q, events, agentId), reached);
  }

  lemma CapacityStays(laneCapacity: nat, events: seq<Event>)
    ensures Run(Fresh(laneCapacity), events).laneCapacity == laneCapacity
  {
    hide Inv, Step;
  }

  lemma CutIsStuck(cut: System, agentId: AgentId, q: Progress)
    requires agentId in cut.actors && q.Started? && q.first <= |cut.actors[agentId].history.log|
    requires q.ends == Settled(cut.link, cut.client, agentId) && Remaining(cut.link) == []
    requires LeftBehind(Settled(cut.link, cut.client, agentId), cut.actors[agentId].history, q.first)
    ensures Stuck(cut, agentId, q, Settled(cut.link, cut.client, agentId))
  {
    hide Settled, LeftBehind;
  }

  /**
   * A replay that would have brought the client back and is cut: over every later run, a client that
   * has taken what was sent of the replay holds exactly the snapshot at the cut, unflagged, or is
   * flagged, until another answer comes.
   */
  lemma CutReplayIsCaught(laneCapacity: nat, before: seq<Event>, agentId: AgentId, events: seq<Event>)
    requires var s := Run(Fresh(laneCapacity), before);
             var p := ProgressOf(laneCapacity, before, agentId);
             var cut := Run(Fresh(laneCapacity), before + [ServerEmits]);
             && Restoring(s, agentId, p) && CutsStart(s.link, p.feed, laneCapacity)
             && UpdateIn(Remaining(s.link)[0].frame).Some?
             && UnansweredRun(cut, ProgressOf(laneCapacity, before + [ServerEmits], agentId), events, agentId)
    ensures var s := Run(Fresh(laneCapacity), before);
            var p := ProgressOf(laneCapacity, before, agentId);
            var h := s.actors[agentId].history;
            var cut := Run(Fresh(laneCapacity), before + [ServerEmits]);
            && 0 < |Remaining(s.link)| <= p.first <= |h.log|
            && CaughtAt(Run(cut, events), agentId,
                 ProgressAfter(cut, ProgressOf(laneCapacity, before + [ServerEmits], agentId), events, agentId),
                 InStep(h, p.first - |Remaining(s.link)|))
  {
    hide Inv, Step, Tracks, Progressed, Run, ProgressAfter, UnansweredRun, CaughtAt, LeftBehind, Settled, InStep, CutsStart;
    var s := Run(Fresh(laneCapacity), before);
    var p := ProgressOf(laneCapacity, before, agentId);
    assert (before + [ServerEmits])[..|before + [ServerEmits]| - 1] == before;
    LastOf(Fresh(laneCapacity), NOTHING, before + [ServerEmits], agentId);
    ProgressTracks(laneCapacity, before, agentId);
    CapacityStays(laneCapacity, before);
    CutReplayReaches(s, agentId, p);
    CutStartIsCaught(laneCapacity, before, agentId, events);
  }

  /** Emitting loses frames of an agent exactly when a full state lane meets them, and then all that remain. */
  lemma OnlyACutLosesFrames(link: Link, capacity: nat, agentId: AgentId)
    requires link.emission.Some?
    ensures |OnTheWay(Emit(link, capacity), agentId)| ==
            |OnTheWay(link, agentId)|
            - (if CutsStart(link, link.emission.value.feed, capacity) then |Filter(FramesIn(Remaining(link)), agentId)| else 0)
  {
    hide Filter, Concerns, InLanes, Emit;
    if CutsStart(link, link.emission.value.feed, capacity) {
      CutLeavesLanes(link, capacity, agentId);
    } else if Overtakes(link, link.emission.value.feed, capacity) && Concerns(Remaining(link)[0].frame, agentId) {
      OvertakingCounts(link, capacity, agentId);
    } else {
      EmitFlow(link, capacity, agentId);
    }
  }

  lemma OvertakingCounts(link: Link, capacity: nat, agentId: AgentId)
    requires link.emission.Some? && Overtakes(link, link.emission.value.feed, capacity)
    requires Concerns(Remaining(link)[0].frame, agentId)
    ensures |OnTheWay(Emit(link, capacity), agentId)| == |OnTheWay(link, agentId)|
  {
    hide Filter, Concerns;
    var sends := Remaining(link);
    FramesInFront(sends);
    FilterConcat([sends[0].frame], FramesIn(sends[1..]), agentId);
    FilterOne(sends[0].frame, agentId);
    FilterPush(link.control, sends[0].frame, agentId);
  }

  /** A cut start does no harm exactly if what was sent of it already brings the client to its end. */
  lemma CutIsHarmlessExactlyWhen(laneCapacity: nat, before: seq<Event>, agentId: AgentId, events: seq<Event>)
    requires var s := Run(Fresh(laneCapacity), before);
             var p := ProgressOf(laneCapacity, before, agentId);
             var cut := Run(Fresh(laneCapacity), before + [ServerEmits]);
             && p.Started? && CutsStart(s.link, p.feed, laneCapacity)
             && UndisturbedRun(cut, ProgressOf(laneCapacity, before + [ServerEmits], agentId), events, agentId)
    ensures var s := Run(Fresh(laneCapacity), before);
            var p := ProgressOf(laneCapacity, before, agentId);
            var cut := Run(Fresh(laneCapacity), before + [ServerEmits]);
            var after := Run(cut, events);
            var q := ProgressAfter(cut, ProgressOf(laneCapacity, before + [ServerEmits], agentId), events, agentId);
            && q.Started? && agentId in s.actors && p.first <= |s.actors[agentId].history.log|
            && (q.left == [] ==>
                  && agentId in after.actors && q.taken <= |after.actors[agentId].history.log|
                  && (ShareOf(after.client, agentId) == InStep(after.actors[agentId].history, q.taken)
                      <==> Settled(cut.link, cut.client, agentId) == InStep(s.actors[agentId].history, p.first)))
  {
    hide Inv, Step, Tracks, Progressed, Run, ProgressAfter, UndisturbedRun, Settled, InStep, CutsStart, ShareOf;
    var s := Run(Fresh(laneCapacity), before);
    var p := ProgressOf(laneCapacity, before, agentId);
    var cut := Run(Fresh(laneCapacity), before + [ServerEmits]);
    var c := ProgressOf(laneCapacity, before + [ServerEmits], agentId);
    assert (before + [ServerEmits])[..|before + [ServerEmits]| - 1] == before;
    LastOf(Fresh(laneCapacity), NOTHING, before + [ServerEmits], agentId);
    ProgressTracks(laneCapacity, before, agentId);
    CapacityStays(laneCapacity, before);
    FirstInLog(s, agentId, p);
    CutRestarts(s, agentId, p);
    UndisturbedRunKeepsWorth(cut, c, events, agentId);
    RunKeepsTrack(cut, c, events, agentId);
    var q := ProgressAfter(cut, c, events, agentId);
    if q.left == [] {
      StandsWhere(Run(cut, events), agentId, q);
    }
  }
}
