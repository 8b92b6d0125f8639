/**
 * One agent on one connection, over every run: which of its frames are on their way to the client,
 * and exactly what the client will hold once it has taken the start of its latest subscription.
 * The actor changes, other agents' frames and subscriptions interleave, live updates follow the
 * start, starts are cut, queues overflow, older subscriptions linger, connections are lost.
 */
module SubscriptionInFlight {
  import opened Prelude
  import opened ControlState
  import opened ActorHistory
  import opened Reducer
  import opened ReplicationSystem
  import opened Reconvergence
  import opened AgentShare

  // ----- what is on its way -----

  function Remaining(link: Link): seq<LaneSend> {
    if link.emission.Some? then link.emission.value.remaining else []
  }

  function FramesIn(sends: seq<LaneSend>): seq<ServerFrame> {
    seq(|sends|, i requires 0 <= i < |sends| => sends[i].frame)
  }

  function InLanes(link: Link, agentId: AgentId): seq<ServerFrame> {
    Filter(link.wire, agentId) + Filter(link.control, agentId) + Filter(link.response, agentId) + Filter(link.state, agentId)
  }

  /** The agent's frames in the order in which the client will get them, if nothing is dropped. */
  function OnTheWay(link: Link, agentId: AgentId): seq<ServerFrame> {
    InLanes(link, agentId) + Filter(FramesIn(Remaining(link)), agentId)
  }

  function LogFrames(log: seq<AgentUpdate>, from: nat, upto: nat): seq<ServerFrame>
    requires from <= upto <= |log|
  {
    seq(upto - from, i requires 0 <= i < upto - from => FrameOf(log[from + i]))
  }

  /** What the client will hold of the agent once everything on its way has arrived. */
  function Settled(link: Link, client: Replica, agentId: AgentId): Share {
    ShareOf(ReduceAll(client, OnTheWay(link, agentId)), agentId)
  }

  // ----- where the agent's subscription stands -----

  /**
   * Adrift: nothing of the agent can arrive, the client keeps `share`. Started: `feed` is the queue
   * of the latest subscription, `left` the frames to take before its live updates come, `ends` what
   * the client holds after them, `first` the log position from which live updates follow, `taken` and
   * `pushed` the positions up to which they reached the client and the state lane.
   */
  datatype Progress =
    | Adrift(share: Share)
    | Started(feed: nat, left: seq<ServerFrame>, first: nat, taken: nat, pushed: nat, ends: Share)

  /** The server is about to answer a subscription to the agent. */
  predicate Answers(s: System, agentId: AgentId) {
    && agentId in s.actors && s.link.emission.None? && s.link.inbox != []
    && s.link.inbox[0].Subscribe? && s.link.inbox[0].agentId == agentId
  }

  /** The next frame of this feed's start goes to the state lane, which has no room for it. */
  predicate CutsStart(link: Link, feed: nat, capacity: nat) {
    && link.emission.Some? && link.emission.value.feed == feed
    && Remaining(link) != [] && Remaining(link)[0].lane == StateLane && |link.state| >= capacity
  }

  /** The next frame of this feed's start is its gap, and it is about to pass whatever waits in the slower lanes. */
  predicate Overtakes(link: Link, feed: nat, capacity: nat) {
    && link.emission.Some? && link.emission.value.feed == feed
    && Remaining(link) != [] && Remaining(link)[0].lane == ControlLane && |link.control| < capacity
  }

  predicate Pushes(link: Link, id: nat, flagged: bool, capacity: nat) {
    id in link.feeds && TakeUpdate(link, id, flagged, capacity).state != link.state
  }

  predicate OlderPushes(s: System, e: Event, agentId: AgentId, feed: nat) {
    && e.FeedTakes? && Pushes(s.link, e.feed, e.flagged, s.laneCapacity)
    && s.link.feeds[e.feed].agentId == agentId && e.feed != feed
  }

  predicate SendsGapOf(s: System, e: Event, agentId: AgentId) {
    e.FeedSendsGap? && e.feed in s.link.feeds && s.link.feeds[e.feed].agentId == agentId
  }

  /**
   * The order of what is on its way is broken: a start is cut, a gap is sent, or a queue of an older
   * subscription pushes.
   */
  predicate Disturbs(s: System, e: Event, agentId: AgentId, feed: nat) {
    || (e.ServerEmits? && CutsStart(s.link, feed, s.laneCapacity))
    || SendsGapOf(s, e, agentId)
    || OlderPushes(s, e, agentId, feed)
  }

  /** Count from here: everything now on its way comes before the live updates still to be pushed. */
  function Restart(s: System, agentId: AgentId, feed: nat, position: nat): Progress {
    Started(feed, OnTheWay(s.link, agentId), position, position, position, Settled(s.link, s.client, agentId))
  }

  function Progressed(s: System, e: Event, agentId: AgentId, p: Progress): Progress
    requires Inv(s)
  {
    InvMeansGenuine(s);
    if e.ConnectionLost? then Adrift(ShareOf(s.client, agentId))
    else if e.ServerTakesRequest? && Answers(s, agentId) then
      Restart(Step(s, e), agentId, s.link.nextFeed, |s.actors[agentId].history.log|)
    else if p.Adrift? then p
    else if Disturbs(s, e, agentId, p.feed) || (e.ServerEmits? && Overtakes(s.link, p.feed, s.laneCapacity)) then
      Restart(Step(s, e), agentId, p.feed, p.pushed)
    else
      match e
      case FeedTakes(id, flagged) =>
        if id == p.feed && Pushes(s.link, id, flagged, s.laneCapacity) then p.(pushed := p.pushed + 1) else p
      case ClientTakesFrame =>
        if s.link.wire == [] || !Concerns(s.link.wire[0], agentId) then p
        else if p.left != [] then p.(left := p.left[1..])
        else p.(taken := p.taken + 1)
      case _ => p
  }

  // ----- what is kept -----

  /** What is left of a start that brings a client to a snapshot: the last updates before it, or the snapshot itself. */
  predicate RestOfStart(sends: seq<LaneSend>, h: History, first: nat)
    requires first <= |h.log|
  {
    || (|sends| <= first && sends == FramesOf(h.log[first - |sends|..first]))
    || sends == StartSends(Snapshot(At(h, first)))
    || sends == StartSends(ResyncRequired(At(h, first)))
  }

  predicate OwnFeed(link: Link, agentId: AgentId, p: Progress, id: nat)
    requires p.Started? && id in link.feeds
  {
    id == p.feed ==>
      && link.feeds[id].agentId == agentId
      && (link.feeds[id].gap == NoGap ==> link.feeds[id].position == p.pushed)
      && (link.feeds[id].live ==> !(link.emission.Some? && link.emission.value.feed == id))
  }

  predicate EmissionTracks(link: Link, agentId: AgentId, p: Progress, h: History)
    requires p.Started? && p.first <= |h.log|
  {
    link.emission.Some? ==>
      if link.emission.value.feed == p.feed then p.pushed == p.first && RestOfStart(Remaining(link), h, p.first)
      else Filter(FramesIn(Remaining(link)), agentId) == []
  }

  predicate Bookkept(link: Link, agentId: AgentId, p: Progress, h: History)
    requires p.Started?
  {
    && p.first <= p.taken <= p.pushed <= |h.log|
    && p.feed < link.nextFeed
    && (forall id :: id in link.feeds ==> OwnFeed(link, agentId, p, id))
    && EmissionTracks(link, agentId, p, h)
  }

  predicate LinkTracks(link: Link, agentId: AgentId, p: Progress, h: History)
    requires p.Started?
  {
    && Bookkept(link, agentId, p, h)
    && OnTheWay(link, agentId) == p.left + LogFrames(h.log, p.taken, p.pushed)
  }

  /**
   * Where a client that held `ends` stands after the live updates from `first` up to `taken`: in step,
   * or flagged by the first of them.
   */
  function Follow(h: History, ends: Share, first: nat, taken: nat): Share
    requires first <= taken <= |h.log|
  {
    if taken == first then ends
    else if ends == InStep(h, first) then InStep(h, taken)
    else Share(ends.held, true)
  }

  function InStep(h: History, k: nat): Share
    requires k <= |h.log|
  {
    Share(Some(At(h, k)), false)
  }

  predicate ClientTracks(client: Replica, agentId: AgentId, p: Progress, h: History)
    requires p.Started? && p.first <= p.taken <= |h.log|
  {
    && ShareOf(ReduceAll(client, p.left), agentId) == Follow(h, p.ends, p.first, p.taken)
    && (p.left != [] ==> p.taken == p.first)
  }

  /** Nothing of the agent is on its way, and no queue of it exists on this connection. */
  predicate Quiet(link: Link, agentId: AgentId) {
    && OnTheWay(link, agentId) == []
    && (forall id :: id in link.feeds ==> link.feeds[id].agentId != agentId)
  }

  predicate Tracks(s: System, agentId: AgentId, p: Progress) {
    match p
    case Adrift(share) => Quiet(s.link, agentId) && share == ShareOf(s.client, agentId)
    case Started(_, _, _, _, _, _) =>
      && agentId in s.actors
      && LinkTracks(s.link, agentId, p, s.actors[agentId].history)
      && ClientTracks(s.client, agentId, p, s.actors[agentId].history)
  }

  // ----- the order of what is on its way -----

  lemma FramesInFront(sends: seq<LaneSend>)
    requires sends != []
    ensures FramesIn(sends) == [sends[0].frame] + FramesIn(sends[1..])
  {
  }

  /** A frame pushed on a lane shows up in the lanes exactly if it concerns the agent. */
  lemma PushFlow(link: Link, frame: ServerFrame, agentId: AgentId)
    requires !Concerns(frame, agentId)
    ensures InLanes(link.(control := link.control + [frame]), agentId) == InLanes(link, agentId)
    ensures InLanes(link.(response := link.response + [frame]), agentId) == InLanes(link, agentId)
    ensures InLanes(link.(state := link.state + [frame]), agentId) == InLanes(link, agentId)
  {
    hide Concerns, Filter;
    FilterPush(link.control, frame, agentId);
    FilterPush(link.response, frame, agentId);
    FilterPush(link.state, frame, agentId);
    assert Filter(link.control, agentId) + [] == Filter(link.control, agentId);
    assert Filter(link.response, agentId) + [] == Filter(link.response, agentId);
    assert Filter(link.state, agentId) + [] == Filter(link.state, agentId);
  }

  lemma StatePushFlow(link: Link, frame: ServerFrame, agentId: AgentId)
    requires Concerns(frame, agentId)
    ensures InLanes(link.(state := link.state + [frame]), agentId) == InLanes(link, agentId) + [frame]
  {
    hide Concerns, Filter;
    FilterPush(link.state, frame, agentId);
  }

  /** Moving a frame from a lane to the wire. */
  lemma MoveFlow(wire: seq<ServerFrame>, lane: seq<ServerFrame>, agentId: AgentId)
    requires lane != []
    ensures Filter(wire + [lane[0]], agentId) + Filter(lane[1..], agentId) == Filter(wire, agentId) + Filter(lane, agentId)
  {
    hide Filter, Concerns;
    FilterPush(wire, lane[0], agentId);
    FilterStep(lane, agentId);
  }

  /** Sending what the lanes hold for an agent keeps the order, because lanes are emptied in priority order. */
  lemma WriteFlow(link: Link, agentId: AgentId)
    ensures InLanes(Write(link), agentId) == InLanes(link, agentId)
  {
    hide Filter;
    if link.control != [] {
      MoveFlow(link.wire, link.control, agentId);
    } else if link.response != [] {
      MoveFlow(link.wire, link.response, agentId);
      EmptyFilter(agentId);
      assert Filter(link.wire, agentId) + [] == Filter(link.wire, agentId);
      assert Filter(Write(link).wire, agentId) + [] == Filter(Write(link).wire, agentId);
    } else if link.state != [] {
      MoveFlow(link.wire, link.state, agentId);
      EmptyFilter(agentId);
      assert Filter(link.wire, agentId) + [] + [] == Filter(link.wire, agentId);
      assert Filter(Write(link).wire, agentId) + [] + [] == Filter(Write(link).wire, agentId);
    }
  }

  lemma EmptyFilter(agentId: AgentId)
    ensures Filter([], agentId) == []
  {
  }

  /** On the control lane the frame overtakes nothing of the agent. */
  predicate PassesNone(link: Link, frame: ServerFrame, agentId: AgentId) {
    Concerns(frame, agentId) ==> Filter(link.response, agentId) == [] && Filter(link.state, agentId) == []
  }

  /** Emitting keeps what is on its way, unless a frame of the agent overtakes another or meets a full state lane. */
  lemma EmitFlow(link: Link, capacity: nat, agentId: AgentId)
    requires link.emission.Some?
    requires Remaining(link) != [] && Remaining(link)[0].lane == ControlLane && |link.control| < capacity ==>
               PassesNone(link, Remaining(link)[0].frame, agentId)
    requires Remaining(link) != [] && Remaining(link)[0].lane == StateLane && |link.state| >= capacity ==>
               Filter(FramesIn(Remaining(link)), agentId) == []
    ensures OnTheWay(Emit(link, capacity), agentId) == OnTheWay(link, agentId)
  {
    hide Filter, Concerns, InLanes;
    var sends := Remaining(link);
    var after := Emit(link, capacity);
    EmptyFilter(agentId);
    if sends == [] {
      LanesOnly(link, after, agentId);
    } else if sends[0].lane == ControlLane {
      if |link.control| < capacity {
        ControlEmitFlow(link, after, agentId);
      }
    } else if |link.state| < capacity {
      StateEmitFlow(link, after, agentId);
    } else {
      LanesOnly(link, after, agentId);
      assert FramesIn([]) == [];
    }
  }

  /** What the lanes hold depends on the lanes only. */
  lemma LanesOnly(link: Link, after: Link, agentId: AgentId)
    requires after.wire == link.wire && after.control == link.control
    requires after.response == link.response && after.state == link.state
    ensures InLanes(after, agentId) == InLanes(link, agentId)
  {
  }

  lemma ControlEmitFlow(link: Link, after: Link, agentId: AgentId)
    requires link.emission.Some? && Remaining(link) != []
    requires PassesNone(link, Remaining(link)[0].frame, agentId)
    requires var sends := Remaining(link);
             after == link.(control := link.control + [sends[0].frame],
                            emission := Some(Emission(link.emission.value.feed, sends[1..])))
    ensures OnTheWay(after, agentId) == OnTheWay(link, agentId)
  {
    hide Filter, Concerns;
    var sends := Remaining(link);
    var frame := sends[0].frame;
    FramesInFront(sends);
    FilterConcat([frame], FramesIn(sends[1..]), agentId);
    FilterOne(frame, agentId);
    FilterPush(link.control, frame, agentId);
    if !Concerns(frame, agentId) {
      PushFlow(link, frame, agentId);
      LanesOnly(link.(control := link.control + [frame]), after, agentId);
    }
  }

  lemma StateEmitFlow(link: Link, after: Link, agentId: AgentId)
    requires link.emission.Some? && Remaining(link) != []
    requires var sends := Remaining(link);
             after == link.(state := link.state + [sends[0].frame],
                            emission := Some(Emission(link.emission.value.feed, sends[1..])))
    ensures OnTheWay(after, agentId) == OnTheWay(link, agentId)
  {
    hide Filter, Concerns;
    var sends := Remaining(link);
    var frame := sends[0].frame;
    FramesInFront(sends);
    FilterConcat([frame], FramesIn(sends[1..]), agentId);
    FilterOne(frame, agentId);
    FilterPush(link.state, frame, agentId);
    if Concerns(frame, agentId) {
      StatePushFlow(link, frame, agentId);
    } else {
      PushFlow(link, frame, agentId);
    }
    LanesOnly(link.(state := link.state + [frame]), after, agentId);
  }

  // ----- bookkeeping -----

  lemma Bounds(link: Link, agentId: AgentId, p: Progress, h: History)
    requires p.Started? && Bookkept(link, agentId, p, h)
    ensures p.first <= p.taken <= p.pushed <= |h.log| && p.feed < link.nextFeed
    ensures EmissionTracks(link, agentId, p, h)
    ensures forall id :: id in link.feeds ==> OwnFeed(link, agentId, p, id)
  {
  }

  /** Feeds, requests and lanes may change as long as the agent's own feed still tracks. */
  lemma FeedsChange(link: Link, after: Link, agentId: AgentId, p: Progress, h: History)
    requires p.Started? && Bookkept(link, agentId, p, h)
    requires after.emission == link.emission && after.nextFeed >= link.nextFeed
    requires forall id :: id in after.feeds ==> OwnFeed(after, agentId, p, id)
    ensures Bookkept(after, agentId, p, h)
  {
    hide RestOfStart, Filter, FramesIn, OwnFeed;
  }

  lemma SameBooks(link: Link, after: Link, agentId: AgentId, p: Progress, h: History)
    requires p.Started? && Bookkept(link, agentId, p, h)
    requires after.emission == link.emission && after.nextFeed == link.nextFeed && after.feeds == link.feeds
    ensures Bookkept(after, agentId, p, h)
  {
    hide RestOfStart, Filter, FramesIn;
    forall id | id in after.feeds ensures OwnFeed(after, agentId, p, id) {
      assert OwnFeed(link, agentId, p, id);
    }
  }

  /** Feeds that only lost something, or moved to another phase of a gap. */
  lemma FewerBooks(link: Link, after: Link, agentId: AgentId, p: Progress, h: History)
    requires p.Started? && Bookkept(link, agentId, p, h)
    requires after.emission == link.emission && after.nextFeed == link.nextFeed
    requires forall id :: id in after.feeds ==> id in link.feeds && Follows(link.feeds[id], after.feeds[id])
    ensures Bookkept(after, agentId, p, h)
  {
    hide RestOfStart, Filter, FramesIn;
    forall id | id in after.feeds ensures OwnFeed(after, agentId, p, id) {
      assert OwnFeed(link, agentId, p, id);
      assert Follows(link.feeds[id], after.feeds[id]);
    }
    FeedsChange(link, after, agentId, p, h);
  }

  predicate Follows(f: Feed, after: Feed) {
    && after.agentId == f.agentId && after.live == f.live
    && (after.gap == NoGap ==> f.gap == NoGap && after.position == f.position)
  }

  /** Counting anew from where the queue stands. */
  lemma RestartBooks(link: Link, agentId: AgentId, p: Progress, q: Progress, h: History)
    requires p.Started? && Bookkept(link, agentId, p, h)
    requires q.Started? && q.feed == p.feed && q.first == q.taken == q.pushed == p.pushed
    ensures Bookkept(link, agentId, q, h)
  {
    hide RestOfStart, Filter, FramesIn;
    forall id | id in link.feeds ensures OwnFeed(link, agentId, q, id) {
      assert OwnFeed(link, agentId, p, id);
    }
  }

  lemma RestartTracks(s: System, agentId: AgentId, p: Progress)
    requires p.Started? && agentId in s.actors && Bookkept(s.link, agentId, p, s.actors[agentId].history)
    ensures Tracks(s, agentId, Restart(s, agentId, p.feed, p.pushed))
  {
    hide Bookkept, OnTheWay, At;
    var h := s.actors[agentId].history;
    var q := Restart(s, agentId, p.feed, p.pushed);
    Bounds(s.link, agentId, p, h);
    RestartBooks(s.link, agentId, p, q, h);
    assert LogFrames(h.log, p.pushed, p.pushed) == [];
    assert q.left + [] == q.left;
  }

  // ----- the history behind the progress -----

  lemma RestGrows(sends: seq<LaneSend>, h: History, after: History, first: nat)
    requires first <= |h.log| && Genuine(h) && RestOfStart(sends, h, first)
    requires after == h || exists update :: IsNext(Current(h), update) && after == Extend(h, update)
    ensures first <= |after.log| && RestOfStart(sends, after, first)
  {
    hide IsNext, Genuine, At;
    AtUnchanged(h, after, first);
    assert |sends| <= first ==> after.log[first - |sends|..first] == h.log[first - |sends|..first];
  }

  lemma LinkTracksGrowth(link: Link, agentId: AgentId, p: Progress, h: History, after: History)
    requires p.Started? && LinkTracks(link, agentId, p, h) && Genuine(h)
    requires after == h || exists update :: IsNext(Current(h), update) && after == Extend(h, update)
    ensures LinkTracks(link, agentId, p, after)
  {
    hide IsNext, Genuine, OnTheWay, OwnFeed, RestOfStart, Current, Filter;
    if link.emission.Some? && link.emission.value.feed == p.feed {
      RestGrows(Remaining(link), h, after, p.first);
    }
    assert LogFrames(h.log, p.taken, p.pushed) == LogFrames(after.log, p.taken, p.pushed);
  }

  lemma ClientTracksGrowth(client: Replica, agentId: AgentId, p: Progress, h: History, after: History)
    requires p.Started? && p.first <= p.taken <= |h.log| && Genuine(h) && ClientTracks(client, agentId, p, h)
    requires after == h || exists update :: IsNext(Current(h), update) && after == Extend(h, update)
    ensures p.taken <= |after.log| && ClientTracks(client, agentId, p, after)
  {
    hide IsNext, Genuine, At, ReduceAll, ShareOf;
    AtUnchanged(h, after, p.first);
    AtUnchanged(h, after, p.taken);
  }

  // ----- steps of the link -----

  lemma RestShrinks(sends: seq<LaneSend>, h: History, first: nat)
    requires first <= |h.log| && RestOfStart(sends, h, first)
    ensures RestOfStart([], h, first)
    ensures sends != [] ==> RestOfStart(sends[1..], h, first)
  {
    hide At, FramesOf;
    NoFrames(h.log, first);
    if sends != [] {
      if |sends| <= first && sends == FramesOf(h.log[first - |sends|..first]) {
        FramesShrink(h.log, first - |sends|, first);
      } else {
        assert sends[1..] == [] || sends[1..] == StartSends(Snapshot(At(h, first)));
      }
    }
  }

  lemma NoFrames(log: seq<AgentUpdate>, first: nat)
    requires first <= |log|
    ensures FramesOf(log[first..first]) == []
  {
  }

  lemma FramesShrink(log: seq<AgentUpdate>, from: nat, upto: nat)
    requires from < upto <= |log|
    ensures |FramesOf(log[from..upto])| == upto - from
    ensures FramesOf(log[from..upto])[1..] == FramesOf(log[from + 1..upto])
  {
    hide FrameOf;
  }

  lemma EmitBooks(link: Link, capacity: nat, agentId: AgentId, p: Progress, h: History)
    requires p.Started? && Bookkept(link, agentId, p, h) && link.emission.Some?
    ensures Bookkept(Emit(link, capacity), agentId, p, h)
  {
    hide Emit, Filter, FramesIn, RestOfStart, EmissionTracks, OwnFeed;
    EmitKeepsNumber(link, capacity);
    EmissionShrinks(link, capacity, agentId, p, h);
    forall id | id in Emit(link, capacity).feeds ensures OwnFeed(Emit(link, capacity), agentId, p, id) {
      assert id in link.feeds;
      EmitFeed(link, capacity, agentId, p, id);
    }
  }

  lemma EmitKeepsNumber(link: Link, capacity: nat)
    requires link.emission.Some?
    ensures Emit(link, capacity).nextFeed == link.nextFeed && Emit(link, capacity).feeds.Keys == link.feeds.Keys
  {
  }

  lemma EmitFeed(link: Link, capacity: nat, agentId: AgentId, p: Progress, id: nat)
    requires p.Started? && link.emission.Some? && id in Emit(link, capacity).feeds
    requires id in link.feeds && OwnFeed(link, agentId, p, id)
    ensures OwnFeed(Emit(link, capacity), agentId, p, id)
  {
  }

  lemma EmissionShrinks(link: Link, capacity: nat, agentId: AgentId, p: Progress, h: History)
    requires p.Started? && p.first <= |h.log| && EmissionTracks(link, agentId, p, h) && link.emission.Some?
    ensures EmissionTracks(Emit(link, capacity), agentId, p, h)
  {
    hide Filter, Concerns, RestOfStart;
    var sends := Remaining(link);
    EmptyFilter(agentId);
    assert FramesIn([]) == [];
    if sends != [] {
      FramesInFront(sends);
      FilterConcat([sends[0].frame], FramesIn(sends[1..]), agentId);
    }
    if link.emission.value.feed == p.feed {
      RestShrinks(sends, h, p.first);
    }
  }

  /** A frame that neither overtakes nor is cut keeps its place. */
  lemma EmitTracks(link: Link, capacity: nat, agentId: AgentId, p: Progress, h: History)
    requires p.Started? && LinkTracks(link, agentId, p, h) && link.emission.Some?
    requires !CutsStart(link, p.feed, capacity) && !Overtakes(link, p.feed, capacity)
    ensures LinkTracks(Emit(link, capacity), agentId, p, h)
  {
    hide Emit, Filter, Concerns, OnTheWay, RestOfStart;
    EmitBooks(link, capacity, agentId, p, h);
    if link.emission.value.feed != p.feed {
      ForeignHead(link, agentId);
    }
    EmitFlow(link, capacity, agentId);
  }

  lemma ForeignHead(link: Link, agentId: AgentId)
    requires Filter(FramesIn(Remaining(link)), agentId) == []
    ensures Remaining(link) != [] ==> !Concerns(Remaining(link)[0].frame, agentId)
  {
    hide Concerns, Filter;
    if Remaining(link) != [] {
      FramesInFront(Remaining(link));
      FilterStep(FramesIn(Remaining(link)), agentId);
    }
  }

  lemma WriteTracks(link: Link, agentId: AgentId, p: Progress, h: History)
    requires p.Started? && LinkTracks(link, agentId, p, h)
    ensures LinkTracks(Write(link), agentId, p, h)
  {
    hide Filter, InLanes, Bookkept;
    WriteFlow(link, agentId);
    SameBooks(link, Write(link), agentId, p, h);
  }

  lemma ReplyTracks(link: Link, urgent: bool, capacity: nat, agentId: AgentId, p: Progress, h: History)
    requires p.Started? && LinkTracks(link, agentId, p, h)
    ensures LinkTracks(Reply(link, urgent, capacity), agentId, p, h)
  {
    hide Filter, InLanes, Bookkept, Concerns;
    OtherConcernsNobody(agentId);
    PushFlow(link, OtherFrame, agentId);
    SameBooks(link, Reply(link, urgent, capacity), agentId, p, h);
  }

  lemma OtherConcernsNobody(agentId: AgentId)
    ensures !Concerns(OtherFrame, agentId)
  {
  }

  lemma SendGapBooks(link: Link, id: nat, capacity: nat, agentId: AgentId, p: Progress, h: History)
    requires p.Started? && Bookkept(link, agentId, p, h) && id in link.feeds
    ensures Bookkept(SendGap(link, id, capacity), agentId, p, h)
  {
    hide Bookkept;
    FewerBooks(link, SendGap(link, id, capacity), agentId, p, h);
  }

  /** A gap of another agent. */
  lemma SendGapTracks(link: Link, id: nat, capacity: nat, agentId: AgentId, p: Progress, h: History)
    requires p.Started? && LinkTracks(link, agentId, p, h)
    requires id in link.feeds && link.feeds[id].agentId != agentId
    requires link.feeds[id].gap.Sending? ==> link.feeds[id].gap.snapshot.agentId == link.feeds[id].agentId
    ensures LinkTracks(SendGap(link, id, capacity), agentId, p, h)
  {
    hide Bookkept;
    SendGapBooks(link, id, capacity, agentId, p, h);
    GapFlow(link, id, capacity, agentId);
  }

  lemma GapFlow(link: Link, id: nat, capacity: nat, agentId: AgentId)
    requires id in link.feeds && link.feeds[id].agentId != agentId
    requires link.feeds[id].gap.Sending? ==> link.feeds[id].gap.snapshot.agentId == link.feeds[id].agentId
    ensures OnTheWay(SendGap(link, id, capacity), agentId) == OnTheWay(link, agentId)
  {
    var after := SendGap(link, id, capacity);
    if after != link {
      var snapshot := link.feeds[id].gap.snapshot;
      var frame := ReplayGap(snapshot.agentId, snapshot.revision, snapshot.eventSequence, SlowConsumer);
      PushFlow(link, frame, agentId);
      LanesOnly(link.(control := link.control + [frame]), after, agentId);
    }
    hide Filter, InLanes;
  }

  /** Feeds and requests may change without touching what is on its way. */
  lemma SameFlow(link: Link, after: Link, agentId: AgentId, p: Progress, h: History)
    requires p.Started? && LinkTracks(link, agentId, p, h) && Bookkept(after, agentId, p, h)
    requires after.emission == link.emission && after.wire == link.wire && after.control == link.control
    requires after.response == link.response && after.state == link.state
    ensures LinkTracks(after, agentId, p, h)
  {
    hide Filter, Bookkept;
    LanesOnly(link, after, agentId);
  }

  lemma ReadSnapshotTracks(link: Link, id: nat, current: AgentSnapshot, agentId: AgentId, p: Progress, h: History)
    requires p.Started? && LinkTracks(link, agentId, p, h) && id in link.feeds
    ensures LinkTracks(ReadSnapshot(link, id, current), agentId, p, h)
  {
    hide Bookkept, OnTheWay;
    FewerBooks(link, ReadSnapshot(link, id, current), agentId, p, h);
    SameFlow(link, ReadSnapshot(link, id, current), agentId, p, h);
  }

  lemma StopTracks(link: Link, id: nat, agentId: AgentId, p: Progress, h: History)
    requires p.Started? && LinkTracks(link, agentId, p, h)
    ensures LinkTracks(link.(feeds := link.feeds - {id}), agentId, p, h)
  {
    hide Bookkept, OnTheWay;
    FewerBooks(link, link.(feeds := link.feeds - {id}), agentId, p, h);
    SameFlow(link, link.(feeds := link.feeds - {id}), agentId, p, h);
  }

  lemma InboxTracks(link: Link, inbox: seq<Request>, agentId: AgentId, p: Progress, h: History)
    requires p.Started? && LinkTracks(link, agentId, p, h)
    ensures LinkTracks(link.(inbox := inbox), agentId, p, h)
  {
    hide Bookkept, OnTheWay;
    SameBooks(link, link.(inbox := inbox), agentId, p, h);
    SameFlow(link, link.(inbox := inbox), agentId, p, h);
  }

  lemma OfferTracks(link: Link, update: AgentUpdate, capacity: nat, agentId: AgentId, p: Progress, h: History)
    requires p.Started? && LinkTracks(link, agentId, p, h)
    ensures LinkTracks(link.(feeds := map id | id in link.feeds :: Offer(link.feeds[id], update, capacity)), agentId, p, h)
  {
    hide Bookkept, OnTheWay;
    var after := link.(feeds := map id | id in link.feeds :: Offer(link.feeds[id], update, capacity));
    FewerBooks(link, after, agentId, p, h);
    SameFlow(link, after, agentId, p, h);
  }

  lemma UpdateConcerns(update: AgentUpdate, agentId: AgentId)
    ensures Concerns(FrameOf(update), agentId) <==> update.Agent() == agentId
  {
  }

  /** A turn of a subscription's loop that pushes nothing. */
  lemma IdleTurnTracks(link: Link, id: nat, flagged: bool, capacity: nat, agentId: AgentId, p: Progress, h: History)
    requires p.Started? && LinkTracks(link, agentId, p, h) && id in link.feeds && !Pushes(link, id, flagged, capacity)
    ensures LinkTracks(TakeUpdate(link, id, flagged, capacity), agentId, p, h)
  {
    hide Bookkept, OnTheWay;
    var after := TakeUpdate(link, id, flagged, capacity);
    FewerBooks(link, after, agentId, p, h);
    SameFlow(link, after, agentId, p, h);
  }

  /** What a pushing turn does to the link. */
  predicate Pushed(link: Link, id: nat, after: Link)
    requires id in link.feeds
  {
    var f := link.feeds[id];
    && f.queue != [] && f.live && f.gap == NoGap
    && after == link.(state := link.state + [FrameOf(f.queue[0])],
                      feeds := link.feeds[id := f.(queue := f.queue[1..], position := f.position + 1)])
  }

  lemma PushingTurn(link: Link, id: nat, flagged: bool, capacity: nat)
    requires Pushes(link, id, flagged, capacity)
    ensures Pushed(link, id, TakeUpdate(link, id, flagged, capacity))
  {
  }

  /** A live update of the agent is pushed behind everything else on its way. */
  lemma OwnPushTracks(link: Link, after: Link, agentId: AgentId, p: Progress, h: History)
    requires p.Started? && LinkTracks(link, agentId, p, h) && p.feed in link.feeds && Pushed(link, p.feed, after)
    requires var f := link.feeds[p.feed];
             f.position < |h.log| && f.queue[0] == h.log[f.position] && f.queue[0].Agent() == agentId
    ensures LinkTracks(after, agentId, p.(pushed := p.pushed + 1), h)
  {
    hide OnTheWay, Pushed, Bookkept;
    OwnPushBooks(link, after, agentId, p, h);
    OwnPushFlow(link, after, agentId, p, h);
    Bounds(link, agentId, p, h);
    assert LogFrames(h.log, p.taken, p.pushed + 1) == LogFrames(h.log, p.taken, p.pushed) + [FrameOf(h.log[p.pushed])];
  }

  lemma OwnPushBooks(link: Link, after: Link, agentId: AgentId, p: Progress, h: History)
    requires p.Started? && Bookkept(link, agentId, p, h) && p.feed in link.feeds && Pushed(link, p.feed, after)
    requires link.feeds[p.feed].position < |h.log|
    ensures link.feeds[p.feed].position == p.pushed
    ensures Bookkept(after, agentId, p.(pushed := p.pushed + 1), h)
  {
    hide Filter, FramesIn, RestOfStart, FrameOf;
    var q := p.(pushed := p.pushed + 1);
    assert OwnFeed(link, agentId, p, p.feed);
    forall k | k in after.feeds ensures OwnFeed(after, agentId, q, k) {
      assert OwnFeed(link, agentId, p, k);
    }
  }

  lemma OwnPushFlow(link: Link, after: Link, agentId: AgentId, p: Progress, h: History)
    requires p.Started? && Bookkept(link, agentId, p, h) && p.feed in link.feeds && Pushed(link, p.feed, after)
    requires var f := link.feeds[p.feed];
             f.position < |h.log| && f.queue[0] == h.log[f.position] && f.queue[0].Agent() == agentId
    ensures OnTheWay(after, agentId) == OnTheWay(link, agentId) + [FrameOf(h.log[p.pushed])]
  {
    hide Filter, Concerns, InLanes, RestOfStart, FrameOf;
    var frame := FrameOf(link.feeds[p.feed].queue[0]);
    assert OwnFeed(link, agentId, p, p.feed);
    UpdateConcerns(link.feeds[p.feed].queue[0], agentId);
    StatePushFlow(link, frame, agentId);
    LanesOnly(link.(state := link.state + [frame]), after, agentId);
    EmptyFilter(agentId);
    assert FramesIn([]) == [];
    assert Filter(FramesIn(Remaining(link)), agentId) == [];
  }

  /** An update pushed by any other queue, of this agent or not. */
  lemma OtherPushBooks(link: Link, id: nat, after: Link, agentId: AgentId, p: Progress, h: History)
    requires p.Started? && Bookkept(link, agentId, p, h) && id in link.feeds && Pushed(link, id, after) && id != p.feed
    ensures Bookkept(after, agentId, p, h)
  {
    hide Filter, FramesIn, RestOfStart, FrameOf;
    forall k | k in after.feeds ensures OwnFeed(after, agentId, p, k) {
      assert OwnFeed(link, agentId, p, k);
    }
  }

  lemma ForeignPushFlow(link: Link, id: nat, after: Link, agentId: AgentId)
    requires id in link.feeds && Pushed(link, id, after) && link.feeds[id].queue[0].Agent() != agentId
    ensures OnTheWay(after, agentId) == OnTheWay(link, agentId)
  {
    hide Filter, Concerns, InLanes, FrameOf;
    var frame := FrameOf(link.feeds[id].queue[0]);
    UpdateConcerns(link.feeds[id].queue[0], agentId);
    PushFlow(link, frame, agentId);
    LanesOnly(link.(state := link.state + [frame]), after, agentId);
  }

  /** A turn of some subscription's loop that leaves the order alone. */
  lemma TurnTracks(link: Link, id: nat, flagged: bool, capacity: nat, agentId: AgentId, p: Progress, h: History)
    requires p.Started? && LinkTracks(link, agentId, p, h) && id in link.feeds
    requires var f := link.feeds[id]; f.queue != [] ==> f.queue[0].Agent() == f.agentId
    requires var f := link.feeds[id];
             f.queue != [] && id == p.feed ==> f.position < |h.log| && f.queue[0] == h.log[f.position]
    requires Pushes(link, id, flagged, capacity) ==> link.feeds[id].agentId != agentId || id == p.feed
    ensures var after := TakeUpdate(link, id, flagged, capacity);
            if id == p.feed && Pushes(link, id, flagged, capacity) then LinkTracks(after, agentId, p.(pushed := p.pushed + 1), h)
            else LinkTracks(after, agentId, p, h)
  {
    hide Bookkept, OnTheWay, TakeUpdate, Pushes, FrameOf;
    if !Pushes(link, id, flagged, capacity) {
      IdleTurnTracks(link, id, flagged, capacity, agentId, p, h);
    } else {
      var after := TakeUpdate(link, id, flagged, capacity);
      PushingTurn(link, id, flagged, capacity);
      if id == p.feed {
        Bounds(link, agentId, p, h);
        assert OwnFeed(link, agentId, p, id);
        OwnPushTracks(link, after, agentId, p, h);
      } else {
        OtherPushBooks(link, id, after, agentId, p, h);
        ForeignPushFlow(link, id, after, agentId);
      }
    }
  }

  // ----- requests -----

  lemma StartConcernsOnly(actors: map<AgentId, Actor>, agentId: AgentId, cursor: Option<SubscriptionCursor>)
    requires ActorsOk(actors) && agentId in actors && ActorOk(agentId, actors[agentId])
    ensures var sends := StartSends(StartFor(actors[agentId].history, actors[agentId].replayCapacity, cursor));
            forall i :: 0 <= i < |sends| ==> ConcernsOnly(sends[i].frame, agentId)
  {
    hide IsNext, Advance, Genuine, At, Replayable, FramesOf, ConcernsOnly;
    var h := actors[agentId].history;
    OkIsGenuine(agentId, actors[agentId]);
    CurrentIsPast(h);
    var start := StartFor(h, actors[agentId].replayCapacity, cursor);
    if start.Replay? {
      ReplayInsideLog(h, actors[agentId].replayCapacity, cursor.value);
      UpdatesConcernOnly(h, cursor.value.eventSequence - h.base.eventSequence);
    } else {
      SnapshotConcernsOnly(Current(h));
    }
  }

  lemma SnapshotConcernsOnly(s: AgentSnapshot)
    ensures ConcernsOnly(SnapshotFrame([s]), s.agentId)
    ensures ConcernsOnly(ReplayGap(s.agentId, s.revision, s.eventSequence, NonContiguousCursor), s.agentId)
  {
  }

  lemma UpdatesConcernOnly(h: History, first: nat)
    requires Genuine(h) && first <= |h.log|
    ensures var sends := FramesOf(h.log[first..]);
            forall i :: 0 <= i < |sends| ==> ConcernsOnly(sends[i].frame, h.base.agentId)
  {
    hide Genuine, IsRecorded;
    var sends := FramesOf(h.log[first..]);
    forall i | 0 <= i < |sends| ensures ConcernsOnly(sends[i].frame, h.base.agentId) {
      LogIsRecorded(h, first + i);
    }
  }

  lemma StartFilters(sends: seq<LaneSend>, agentId: AgentId, other: AgentId)
    requires forall i :: 0 <= i < |sends| ==> ConcernsOnly(sends[i].frame, agentId)
    ensures Filter(FramesIn(sends), other) == if other == agentId then FramesIn(sends) else []
  {
    hide Concerns, ConcernsOnly;
    forall i | 0 <= i < |sends| ensures Concerns(FramesIn(sends)[i], other) <==> other == agentId {
      OnlyOne(sends[i].frame, agentId, other);
    }
    if other == agentId {
      FilterAll(FramesIn(sends), other);
    } else {
      FilterNone(FramesIn(sends), other);
    }
  }

  /** What taking a request of another agent leaves as it was for this agent. */
  predicate ForeignTaken(link: Link, after: Link, agentId: AgentId) {
    && OnTheWay(after, agentId) == OnTheWay(link, agentId)
    && after.nextFeed >= link.nextFeed
    && (after.emission.Some? ==>
          after.emission.value.feed == link.nextFeed && Filter(FramesIn(Remaining(after)), agentId) == [])
    && (forall id :: id in after.feeds ==> ForeignFeed(link, after, agentId, id))
    && (after == link || (link.inbox != [] && after.inbox == link.inbox[1..]))
  }

  /** An older queue, possibly aborted by now, or the new one of the other agent. */
  predicate ForeignFeed(link: Link, after: Link, agentId: AgentId, id: nat)
    requires id in after.feeds
  {
    if id == link.nextFeed then after.feeds[id].agentId != agentId && after.nextFeed > id
    else id in link.feeds && after.feeds[id] == link.feeds[id].(aborted := after.feeds[id].aborted)
  }

  /** Taking any request but a subscription to the agent itself. */
  lemma ForeignRequest(s: System, agentId: AgentId)
    requires Inv(s) && s.link.inbox != [] && s.link.emission.None? && !Answers(s, agentId)
    requires forall a :: a in s.actors ==> Genuine(s.actors[a].history)
    ensures ForeignTaken(s.link, TakeRequest(s).link, agentId)
    ensures TakeRequest(s).client == s.client && TakeRequest(s).actors == s.actors
  {
    hide Genuine, StartFor, StartSends, ForeignTaken, Abort, LinkOk;
    var request := s.link.inbox[0];
    var rest := s.link.(inbox := s.link.inbox[1..]);
    OldFeeds(s);
    AbortForeign(s.link, rest, request.agentId, agentId);
    if request.Subscribe? && request.agentId in s.actors {
      var actor := s.actors[request.agentId];
      var sends := StartSends(StartFor(actor.history, actor.replayCapacity, request.cursor));
      StartConcernsOnly(s.actors, request.agentId, request.cursor);
      StartFilters(sends, request.agentId, agentId);
      StartForeign(s.link, Abort(rest, request.agentId), sends,
        Feed(request.agentId, |actor.history.log|, [], true, false, false, false, NoGap), agentId);
    } else if request.Subscribe? {
      ErrorForeign(s.link, rest, s.laneCapacity, agentId);
    }
  }

  lemma OldFeeds(s: System)
    requires Inv(s)
    ensures forall id :: id in s.link.feeds ==> id < s.link.nextFeed
    ensures forall a :: a in s.actors ==> ActorOk(a, s.actors[a])
  {
  }

  lemma AbortForeign(link: Link, rest: Link, other: AgentId, agentId: AgentId)
    requires link.emission.None? && link.inbox != [] && rest == link.(inbox := link.inbox[1..])
    requires forall id :: id in link.feeds ==> id < link.nextFeed
    ensures ForeignTaken(link, Abort(rest, other), agentId)
    ensures Abort(rest, other).emission.None? && Abort(rest, other).nextFeed == link.nextFeed
    ensures Abort(rest, other).inbox == link.inbox[1..]
  {
    hide Filter;
    LanesOnly(link, Abort(rest, other), agentId);
  }

  lemma StartForeign(link: Link, cleared: Link, sends: seq<LaneSend>, feed: Feed, agentId: AgentId)
    requires ForeignTaken(link, cleared, agentId) && cleared.emission.None? && cleared.nextFeed == link.nextFeed
    requires link.inbox != [] && cleared.inbox == link.inbox[1..]
    requires Filter(FramesIn(sends), agentId) == [] && feed.agentId != agentId
    ensures ForeignTaken(link, cleared.(feeds := cleared.feeds[cleared.nextFeed := feed], nextFeed := cleared.nextFeed + 1,
              emission := Some(Emission(cleared.nextFeed, sends))), agentId)
  {
    var after := cleared.(feeds := cleared.feeds[cleared.nextFeed := feed], nextFeed := cleared.nextFeed + 1,
                          emission := Some(Emission(cleared.nextFeed, sends)));
    EmptyFilter(agentId);
    assert FramesIn([]) == [];
    LanesOnly(cleared, after, agentId);
    hide Filter, InLanes, FramesIn;
    forall id | id in after.feeds ensures ForeignFeed(link, after, agentId, id) {
      assert id in cleared.feeds ==> ForeignFeed(link, cleared, agentId, id);
    }
  }

  lemma ErrorForeign(link: Link, rest: Link, capacity: nat, agentId: AgentId)
    requires link.emission.None? && link.inbox != [] && rest == link.(inbox := link.inbox[1..])
    requires forall id :: id in link.feeds ==> id < link.nextFeed
    ensures ForeignTaken(link, link, agentId)
    ensures ForeignTaken(link, rest.(control := rest.control + [OtherFrame]), agentId)
  {
    OtherConcernsNobody(agentId);
    PushFlow(link, OtherFrame, agentId);
    LanesOnly(link.(control := link.control + [OtherFrame]), rest.(control := rest.control + [OtherFrame]), agentId);
    hide Filter, InLanes;
  }

  lemma ForeignRequestTracks(s: System, agentId: AgentId, p: Progress)
    requires Inv(s) && agentId in s.actors && s.link.inbox != [] && s.link.emission.None? && !Answers(s, agentId)
    requires forall a :: a in s.actors ==> Genuine(s.actors[a].history)
    requires p.Started? && LinkTracks(s.link, agentId, p, s.actors[agentId].history)
    ensures LinkTracks(TakeRequest(s).link, agentId, p, s.actors[agentId].history)
  {
    hide Inv, TakeRequest, Filter, InLanes, OnTheWay, Genuine, RestOfStart, FramesIn, Answers;
    ForeignRequest(s, agentId);
    var after := TakeRequest(s).link;
    forall id | id in after.feeds ensures OwnFeed(after, agentId, p, id) {
      assert ForeignFeed(s.link, after, agentId, id);
      if id != s.link.nextFeed {
        assert OwnFeed(s.link, agentId, p, id);
      }
    }
  }

  /** What the server is about to send the agent's subscriber. */
  function StartFrames(s: System, agentId: AgentId): seq<LaneSend>
    requires Answers(s, agentId) && Genuine(s.actors[agentId].history)
  {
    StartSends(StartFor(s.actors[agentId].history, s.actors[agentId].replayCapacity, s.link.inbox[0].cursor))
  }

  /** The whole start lines up behind everything of the agent that is still on its way. */
  lemma StartLinesUp(s: System, agentId: AgentId)
    requires Inv(s) && Answers(s, agentId) && forall a :: a in s.actors ==> Genuine(s.actors[a].history)
    ensures var after := TakeRequest(s).link;
            && OnTheWay(after, agentId) == OnTheWay(s.link, agentId) + FramesIn(StartFrames(s, agentId))
            && after.emission == Some(Emission(s.link.nextFeed, StartFrames(s, agentId)))
            && after.nextFeed == s.link.nextFeed + 1
            && s.link.nextFeed in after.feeds
            && after.feeds[s.link.nextFeed] ==
               Feed(agentId, |s.actors[agentId].history.log|, [], true, false, false, false, NoGap)
    ensures TakeRequest(s).client == s.client && TakeRequest(s).actors == s.actors
  {
    hide Genuine, StartFor, StartSends, Filter, Concerns, ConcernsOnly;
    InvParts(s, agentId);
    StartConcernsOnly(s.actors, agentId, s.link.inbox[0].cursor);
    StartFilters(StartFrames(s, agentId), agentId, agentId);
    LanesOnly(s.link, TakeRequest(s).link, agentId);
    EmptyFilter(agentId);
    assert FramesIn([]) == [];
    assert InLanes(s.link, agentId) + [] == InLanes(s.link, agentId);
  }

  lemma StartIsRest(h: History, capacity: nat, cursor: Option<SubscriptionCursor>)
    requires Genuine(h)
    ensures RestOfStart(StartSends(StartFor(h, capacity, cursor)), h, |h.log|)
  {
    hide Genuine, At;
    var start := StartFor(h, capacity, cursor);
    if start.Replay? {
      ReplayInsideLog(h, capacity, cursor.value);
      var k := cursor.value.eventSequence - h.base.eventSequence;
      assert h.log[k..] == h.log[k..|h.log|];
      assert StartSends(start) == FramesOf(h.log[k..|h.log|]);
    }
  }

  lemma AnswerTracks(s: System, agentId: AgentId)
    requires Inv(s) && Answers(s, agentId) && forall a :: a in s.actors ==> Genuine(s.actors[a].history)
    ensures Tracks(TakeRequest(s), agentId, Restart(TakeRequest(s), agentId, s.link.nextFeed, |s.actors[agentId].history.log|))
  {
    hide Genuine, OnTheWay, Inv, TakeRequest, StartFrames, At, RestOfStart, Settled, Follow;
    var h := s.actors[agentId].history;
    StartLinesUp(s, agentId);
    StartFramesAreRest(s, agentId);
    var after := TakeRequest(s).link;
    var q := Restart(TakeRequest(s), agentId, s.link.nextFeed, |h.log|);
    forall id | id in after.feeds ensures OwnFeed(after, agentId, q, id) {
    }
    assert LogFrames(h.log, |h.log|, |h.log|) == [];
    assert q.left + [] == q.left;
    RestartedClient(TakeRequest(s), agentId, s.link.nextFeed, h);
  }

  lemma StartFramesAreRest(s: System, agentId: AgentId)
    requires Answers(s, agentId) && Genuine(s.actors[agentId].history)
    ensures var h := s.actors[agentId].history; RestOfStart(StartFrames(s, agentId), h, |h.log|)
  {
    hide Genuine, StartFor, StartSends, RestOfStart;
    StartIsRest(s.actors[agentId].history, s.actors[agentId].replayCapacity, s.link.inbox[0].cursor);
  }

  lemma RestartedClient(s: System, agentId: AgentId, feed: nat, h: History)
    ensures ClientTracks(s.client, agentId, Restart(s, agentId, feed, |h.log|), h)
  {
    hide OnTheWay, ReduceAll, ShareOf;
  }

  // ----- the client's side -----

  lemma WireFront(link: Link, agentId: AgentId)
    requires link.wire != []
    ensures OnTheWay(link, agentId) ==
            (if Concerns(link.wire[0], agentId) then [link.wire[0]] else [])
            + OnTheWay(link.(wire := link.wire[1..]), agentId)
  {
    var front := if Concerns(link.wire[0], agentId) then [link.wire[0]] else [];
    FilterStep(link.wire, agentId);
    hide Concerns, Filter, FramesIn;
    FrontFirst(front, Filter(link.wire[1..], agentId), Filter(link.control, agentId),
      Filter(link.response, agentId), Filter(link.state, agentId), Filter(FramesIn(Remaining(link)), agentId));
  }

  lemma FrontFirst<T>(x: seq<T>, a: seq<T>, b: seq<T>, c: seq<T>, d: seq<T>, e: seq<T>)
    ensures (x + a) + b + c + d + e == x + (a + b + c + d + e)
  {
  }

  lemma TakesLeft(client: Replica, frame: ServerFrame, agentId: AgentId, p: Progress, h: History)
    requires p.Started? && p.first <= p.taken <= |h.log| && ClientTracks(client, agentId, p, h)
    requires p.left != [] && frame == p.left[0]
    ensures ClientTracks(Reduce(client, frame), agentId, p.(left := p.left[1..]), h)
  {
    hide Reduce, ShareOf, At;
  }

  /** A client that holds a snapshot of the agent's history, or none. */
  predicate HoldsPast(r: Replica, h: History) {
    h.base.agentId in r.agents ==> IsPast(h, r.agents[h.base.agentId])
  }

  /**
   * The next update brings a client forward exactly if it is unflagged and in step right before it;
   * any other client is flagged and keeps what it has.
   */
  lemma UpdateDecides(h: History, k: nat, r: Replica)
    requires Genuine(h) && k < |h.log| && HoldsPast(r, h)
    ensures var share := ShareOf(r, h.base.agentId);
            ShareOf(Reduce(r, FrameOf(h.log[k])), h.base.agentId) ==
            if share == InStep(h, k) then InStep(h, k + 1) else Share(share.held, true)
  {
    hide Genuine, At, Reduce;
    if ShareOf(r, h.base.agentId) == InStep(h, k) {
      NextFrameAccepted(h, k, r);
    } else {
      OutOfStepIsFlagged(h, k, r);
    }
  }

  lemma OutOfStepIsFlagged(h: History, k: nat, r: Replica)
    requires Genuine(h) && k < |h.log| && HoldsPast(r, h) && ShareOf(r, h.base.agentId) != InStep(h, k)
    ensures Rejection(r, h.log[k]).Some?
    ensures ShareOf(Reduce(r, FrameOf(h.log[k])), h.base.agentId) == Share(ShareOf(r, h.base.agentId).held, true)
  {
    hide Genuine, At, IsRecorded, ApplyDelta, Advance;
    LogIsRecorded(h, k);
    RecordedSequence(h, k);
    FrameCarriesUpdate(h.log[k]);
  }

  lemma RecordedSequence(h: History, k: nat)
    requires Genuine(h) && k < |h.log|
    ensures h.log[k].sequence == h.base.eventSequence + k + 1
  {
    CountersCount(h, k);
    assert NextAt(h, k);
  }

  lemma TakesUpdate(client: Replica, agentId: AgentId, p: Progress, h: History)
    requires Genuine(h) && h.base.agentId == agentId && HoldsPast(client, h)
    requires p.Started? && p.left == [] && p.first <= p.taken < |h.log| && ClientTracks(client, agentId, p, h)
    ensures ClientTracks(Reduce(client, FrameOf(h.log[p.taken])), agentId, p.(taken := p.taken + 1), h)
  {
    hide Reduce, Genuine, HoldsPast, ShareOf, IsPast, FrameOf;
    assert ReduceAll(client, []) == client;
    UpdateDecides(h, p.taken, client);
    assert ReduceAll(Reduce(client, FrameOf(h.log[p.taken])), []) == Reduce(client, FrameOf(h.log[p.taken]));
    DifferentSteps(h, p.first, p.taken);
  }

  lemma DifferentSteps(h: History, j: nat, k: nat)
    requires Genuine(h) && j <= |h.log| && k <= |h.log|
    ensures InStep(h, j) == InStep(h, k) ==> j == k
  {
    hide Genuine, At;
    CountersCount(h, j);
    CountersCount(h, k);
  }

  lemma ElsewhereTracks(client: Replica, frame: ServerFrame, agentId: AgentId, p: Progress, h: History)
    requires p.Started? && p.first <= p.taken <= |h.log| && ClientTracks(client, agentId, p, h) && !Concerns(frame, agentId)
    ensures ClientTracks(Reduce(client, frame), agentId, p, h)
  {
    ReduceElsewhere(client, frame, agentId);
    ReduceAllIsLocal(client, Reduce(client, frame), p.left, agentId);
    hide Reduce, ShareOf, At, Concerns;
  }

  lemma WireTracks(link: Link, after: Link, agentId: AgentId, p: Progress, h: History)
    requires p.Started? && LinkTracks(link, agentId, p, h) && link.wire != []
    requires after == link.(wire := link.wire[1..], inbox := after.inbox)
    ensures if !Concerns(link.wire[0], agentId) then LinkTracks(after, agentId, p, h)
            else if p.left != [] then
              link.wire[0] == p.left[0] && LinkTracks(after, agentId, p.(left := p.left[1..]), h)
            else
              && p.taken < p.pushed <= |h.log| && link.wire[0] == FrameOf(h.log[p.taken])
              && LinkTracks(after, agentId, p.(taken := p.taken + 1), h)
  {
    hide Concerns, InLanes, Bookkept, OnTheWay, FrameOf;
    WireFlow(link, after, agentId);
    Bounds(link, agentId, p, h);
    SameBooks(link, after, agentId, p, h);
    if Concerns(link.wire[0], agentId) {
      if p.left != [] {
        FrontGone(p.left, LogFrames(h.log, p.taken, p.pushed));
        SameBooksFor(after, agentId, p, p.(left := p.left[1..]), h);
      } else {
        assert LogFrames(h.log, p.taken, p.pushed)[1..] == LogFrames(h.log, p.taken + 1, p.pushed);
        SameBooksFor(after, agentId, p, p.(taken := p.taken + 1), h);
      }
    }
  }

  lemma FrontGone<T>(x: seq<T>, y: seq<T>)
    requires x != []
    ensures (x + y)[0] == x[0] && (x + y)[1..] == x[1..] + y
  {
  }

  lemma WireFlow(link: Link, after: Link, agentId: AgentId)
    requires link.wire != [] && after == link.(wire := link.wire[1..], inbox := after.inbox)
    ensures if Concerns(link.wire[0], agentId) then
              && OnTheWay(link, agentId) != [] && OnTheWay(link, agentId)[0] == link.wire[0]
              && OnTheWay(after, agentId) == OnTheWay(link, agentId)[1..]
            else OnTheWay(after, agentId) == OnTheWay(link, agentId)
  {
    hide Filter, Concerns, InLanes;
    WireFront(link, agentId);
    LanesOnly(link.(wire := link.wire[1..]), after, agentId);
  }

  lemma SameBooksFor(link: Link, agentId: AgentId, p: Progress, q: Progress, h: History)
    requires p.Started? && Bookkept(link, agentId, p, h)
    requires q.Started? && q == p.(left := q.left, taken := q.taken) && p.first <= q.taken <= p.pushed
    ensures Bookkept(link, agentId, q, h)
  {
    hide RestOfStart, Filter, FramesIn;
    forall id | id in link.feeds ensures OwnFeed(link, agentId, q, id) {
      assert OwnFeed(link, agentId, p, id);
    }
  }

  // ----- while nothing of the agent can arrive -----

  lemma QuietParts(link: Link, agentId: AgentId)
    requires OnTheWay(link, agentId) == []
    ensures InLanes(link, agentId) == [] && Filter(FramesIn(Remaining(link)), agentId) == []
  {
    hide Filter, InLanes;
  }

  lemma EmitKeepsQuiet(link: Link, capacity: nat, agentId: AgentId)
    requires Quiet(link, agentId) && link.emission.Some?
    ensures Quiet(Emit(link, capacity), agentId)
  {
    hide Emit, Filter, InLanes, FramesIn, OnTheWay, Concerns;
    QuietParts(link, agentId);
    ForeignHead(link, agentId);
    EmitFlow(link, capacity, agentId);
    EmitKeepsAgents(link, capacity);
  }

  lemma EmitKeepsAgents(link: Link, capacity: nat)
    requires link.emission.Some?
    ensures forall id :: id in Emit(link, capacity).feeds ==>
              id in link.feeds && Emit(link, capacity).feeds[id].agentId == link.feeds[id].agentId
  {
  }

  lemma WriteKeepsQuiet(link: Link, agentId: AgentId)
    requires Quiet(link, agentId)
    ensures Quiet(Write(link), agentId)
  {
    WriteFlow(link, agentId);
    hide Filter, InLanes;
  }

  lemma ReplyKeepsQuiet(link: Link, urgent: bool, capacity: nat, agentId: AgentId)
    requires Quiet(link, agentId)
    ensures Quiet(Reply(link, urgent, capacity), agentId)
  {
    hide Filter, InLanes, Concerns;
    OtherConcernsNobody(agentId);
    PushFlow(link, OtherFrame, agentId);
  }

  lemma SendGapKeepsQuiet(link: Link, id: nat, capacity: nat, agentId: AgentId)
    requires Quiet(link, agentId) && id in link.feeds
    requires link.feeds[id].gap.Sending? ==> link.feeds[id].gap.snapshot.agentId == link.feeds[id].agentId
    ensures Quiet(SendGap(link, id, capacity), agentId)
  {
    GapFlow(link, id, capacity, agentId);
    hide OnTheWay;
  }

  lemma TakeUpdateKeepsQuiet(link: Link, id: nat, flagged: bool, capacity: nat, agentId: AgentId)
    requires Quiet(link, agentId) && id in link.feeds
    requires link.feeds[id].queue != [] ==> link.feeds[id].queue[0].Agent() == link.feeds[id].agentId
    ensures Quiet(TakeUpdate(link, id, flagged, capacity), agentId)
  {
    hide OnTheWay, FrameOf;
    var after := TakeUpdate(link, id, flagged, capacity);
    if Pushes(link, id, flagged, capacity) {
      PushingTurn(link, id, flagged, capacity);
      ForeignPushFlow(link, id, after, agentId);
    } else {
      SameLanes(link, after, agentId);
    }
  }

  lemma SameLanes(link: Link, after: Link, agentId: AgentId)
    requires after.wire == link.wire && after.control == link.control && after.response == link.response
    requires after.state == link.state && after.emission == link.emission
    ensures OnTheWay(after, agentId) == OnTheWay(link, agentId)
  {
    hide Filter;
    LanesOnly(link, after, agentId);
  }

  /** Feeds and requests may change as long as no queue of the agent appears. */
  lemma FeedsKeepQuiet(link: Link, after: Link, agentId: AgentId)
    requires Quiet(link, agentId)
    requires after == link.(feeds := after.feeds, inbox := after.inbox, subscriptions := after.subscriptions)
    requires forall id :: id in after.feeds ==> id in link.feeds && after.feeds[id].agentId == link.feeds[id].agentId
    ensures Quiet(after, agentId)
  {
    hide OnTheWay;
    SameLanes(link, after, agentId);
  }

  lemma ForeignRequestKeepsQuiet(s: System, agentId: AgentId)
    requires Inv(s) && Quiet(s.link, agentId) && s.link.inbox != [] && s.link.emission.None? && !Answers(s, agentId)
    requires forall a :: a in s.actors ==> Genuine(s.actors[a].history)
    ensures Quiet(TakeRequest(s).link, agentId)
  {
    hide Inv, TakeRequest, OnTheWay, Genuine, Answers;
    ForeignRequest(s, agentId);
    var after := TakeRequest(s).link;
    assert forall id :: id in after.feeds ==> ForeignFeed(s.link, after, agentId, id);
  }

  lemma WireKeepsQuiet(link: Link, after: Link, agentId: AgentId)
    requires Quiet(link, agentId) && link.wire != []
    requires after == link.(wire := link.wire[1..], inbox := after.inbox)
    ensures Quiet(after, agentId) && !Concerns(link.wire[0], agentId)
  {
    hide OnTheWay, Concerns;
    WireFlow(link, after, agentId);
  }

  lemma InboxKeepsQuiet(link: Link, request: Request, agentId: AgentId)
    requires Quiet(link, agentId)
    ensures Quiet(link.(inbox := link.inbox + [request]), agentId)
  {
    hide OnTheWay;
    FeedsKeepQuiet(link, link.(inbox := link.inbox + [request]), agentId);
  }

  lemma OfferKeepsQuiet(link: Link, update: AgentUpdate, capacity: nat, agentId: AgentId)
    requires Quiet(link, agentId)
    ensures Quiet(link.(feeds := map id | id in link.feeds :: Offer(link.feeds[id], update, capacity)), agentId)
  {
    hide OnTheWay;
    FeedsKeepQuiet(link, link.(feeds := map id | id in link.feeds :: Offer(link.feeds[id], update, capacity)), agentId);
  }

  lemma ReadSnapshotKeepsQuiet(link: Link, id: nat, current: AgentSnapshot, agentId: AgentId)
    requires Quiet(link, agentId) && id in link.feeds
    ensures Quiet(ReadSnapshot(link, id, current), agentId)
  {
    hide OnTheWay;
    FeedsKeepQuiet(link, ReadSnapshot(link, id, current), agentId);
  }

  lemma NoLinkIsQuiet(agentId: AgentId)
    ensures Quiet(NO_LINK, agentId)
  {
  }

  // ----- every step keeps track -----

  lemma FeedFront(actors: map<AgentId, Actor>, f: Feed)
    requires ActorsOk(actors) && FeedOk(actors, f)
    ensures f.queue != [] ==>
              && f.position < |actors[f.agentId].history.log|
              && f.queue[0] == actors[f.agentId].history.log[f.position]
              && f.queue[0].Agent() == f.agentId
    ensures f.gap.Sending? ==> f.gap.snapshot.agentId == f.agentId
  {
    hide IsRecorded;
    assert ActorOk(f.agentId, actors[f.agentId]);
    OkIsGenuine(f.agentId, actors[f.agentId]);
    if f.queue != [] {
      assert f.queue[0] == actors[f.agentId].history.log[f.position..][0];
      LogIsRecorded(actors[f.agentId].history, f.position);
    }
  }

  lemma FeedOfInv(s: System, id: nat)
    requires Inv(s) && id in s.link.feeds
    ensures ActorsOk(s.actors) && FeedOk(s.actors, s.link.feeds[id])
  {
  }

  /** Events of the connection only. */
  predicate OfLink(e: Event) {
    || e.ServerEmits? || e.ServerReplies? || e.FeedTakes? || e.FeedReadsSnapshot? || e.FeedSendsGap?
    || e.FeedStops? || e.WriterSends? || e.ClientSubscribes? || e.ClientUnsubscribes?
  }

  lemma LinkEventsKeepRest(s: System, e: Event)
    requires OfLink(e) && forall a :: a in s.actors ==> Genuine(s.actors[a].history)
    ensures Step(s, e).actors == s.actors && Step(s, e).client == s.client
    ensures !e.ClientSubscribes? && !e.ClientUnsubscribes? ==> Step(s, e).link.inbox == s.link.inbox
  {
    hide Genuine, Cursor, Current;
  }

  lemma AdriftLinkStep(s: System, e: Event, agentId: AgentId)
    requires Inv(s) && OfLink(e) && Quiet(s.link, agentId)
    requires forall a :: a in s.actors ==> Genuine(s.actors[a].history)
    ensures Quiet(Step(s, e).link, agentId)
  {
    hide Inv, Quiet, Emit, TakeUpdate, Reply, ReadSnapshot, SendGap, Write, Genuine, Cursor, Current;
    match e {
      case ServerEmits => if s.link.emission.Some? { EmitKeepsQuiet(s.link, s.laneCapacity, agentId); }
      case ServerReplies(urgent) => ReplyKeepsQuiet(s.link, urgent, s.laneCapacity, agentId);
      case FeedTakes(id, flagged) =>
        if id in s.link.feeds {
          FeedOfInv(s, id);
          FeedFront(s.actors, s.link.feeds[id]);
          TakeUpdateKeepsQuiet(s.link, id, flagged, s.laneCapacity, agentId);
        }
      case FeedReadsSnapshot(id) =>
        if id in s.link.feeds && s.link.feeds[id].agentId in s.actors {
          ReadSnapshotKeepsQuiet(s.link, id, Current(s.actors[s.link.feeds[id].agentId].history), agentId);
        }
      case FeedSendsGap(id) =>
        if id in s.link.feeds {
          FeedOfInv(s, id);
          FeedFront(s.actors, s.link.feeds[id]);
          SendGapKeepsQuiet(s.link, id, s.laneCapacity, agentId);
        }
      case FeedStops(id) =>
        if id in s.link.feeds && s.link.feeds[id].aborted {
          FeedsKeepQuiet(s.link, s.link.(feeds := s.link.feeds - {id}), agentId);
        }
      case WriterSends => WriteKeepsQuiet(s.link, agentId);
      case ClientSubscribes(other, resume) =>
        InboxKeepsQuiet(s.link, Subscribe(other, if resume then Cursor(s.client, other) else None), agentId);
      case ClientUnsubscribes(other) => InboxKeepsQuiet(s.link, Unsubscribe(other), agentId);
    }
  }

  /** A step of the connection that leaves the order of what is on its way alone. */
  predicate Orderly(s: System, e: Event, agentId: AgentId, feed: nat) {
    !Disturbs(s, e, agentId, feed) && !(e.ServerEmits? && Overtakes(s.link, feed, s.laneCapacity))
  }

  lemma OrderlyLinkStep(s: System, e: Event, agentId: AgentId, p: Progress)
    requires Inv(s) && agentId in s.actors && p.Started? && OfLink(e) && Orderly(s, e, agentId, p.feed)
    requires LinkTracks(s.link, agentId, p, s.actors[agentId].history) && !e.FeedTakes?
    requires forall a :: a in s.actors ==> Genuine(s.actors[a].history)
    ensures LinkTracks(Step(s, e).link, agentId, p, s.actors[agentId].history)
  {
    hide Inv, LinkTracks, Emit, TakeUpdate, Reply, ReadSnapshot, SendGap, Write, Genuine, Cursor, Current;
    hide CutsStart, Overtakes, OlderPushes;
    var h := s.actors[agentId].history;
    match e {
      case ServerEmits => if s.link.emission.Some? { EmitTracks(s.link, s.laneCapacity, agentId, p, h); }
      case ServerReplies(urgent) => ReplyTracks(s.link, urgent, s.laneCapacity, agentId, p, h);
      case FeedReadsSnapshot(id) =>
        if id in s.link.feeds && s.link.feeds[id].agentId in s.actors {
          ReadSnapshotTracks(s.link, id, Current(s.actors[s.link.feeds[id].agentId].history), agentId, p, h);
        }
      case FeedSendsGap(id) =>
        if id in s.link.feeds {
          FeedOfInv(s, id);
          FeedFront(s.actors, s.link.feeds[id]);
          SendGapTracks(s.link, id, s.laneCapacity, agentId, p, h);
        }
      case FeedStops(id) =>
        if id in s.link.feeds && s.link.feeds[id].aborted { StopTracks(s.link, id, agentId, p, h); }
      case WriterSends => WriteTracks(s.link, agentId, p, h);
      case ClientSubscribes(other, resume) =>
        InboxTracks(s.link, s.link.inbox + [Subscribe(other, if resume then Cursor(s.client, other) else None)], agentId, p, h);
      case ClientUnsubscribes(other) => InboxTracks(s.link, s.link.inbox + [Unsubscribe(other)], agentId, p, h);
    }
  }

  lemma OrderlyTurn(s: System, e: Event, agentId: AgentId, p: Progress)
    requires Inv(s) && agentId in s.actors && p.Started? && e.FeedTakes? && Orderly(s, e, agentId, p.feed)
    requires LinkTracks(s.link, agentId, p, s.actors[agentId].history)
    requires forall a :: a in s.actors ==> Genuine(s.actors[a].history)
    ensures var pushes := e.feed == p.feed && Pushes(s.link, e.feed, e.flagged, s.laneCapacity);
            var q := if pushes then p.(pushed := p.pushed + 1) else p;
            LinkTracks(Step(s, e).link, agentId, q, s.actors[agentId].history)
  {
    hide Inv, LinkTracks, TakeUpdate, Genuine, Current;
    if e.feed in s.link.feeds {
      FeedOfInv(s, e.feed);
      FeedFront(s.actors, s.link.feeds[e.feed]);
      if e.feed == p.feed {
        OwnAgent(s.link, agentId, p, s.actors[agentId].history);
      }
      TurnTracks(s.link, e.feed, e.flagged, s.laneCapacity, agentId, p, s.actors[agentId].history);
    }
  }

  lemma OwnAgent(link: Link, agentId: AgentId, p: Progress, h: History)
    requires p.Started? && LinkTracks(link, agentId, p, h) && p.feed in link.feeds
    ensures link.feeds[p.feed].agentId == agentId
  {
    hide OnTheWay, EmissionTracks;
    assert OwnFeed(link, agentId, p, p.feed);
  }

  lemma DisorderlyBooks(s: System, e: Event, agentId: AgentId, p: Progress)
    requires Inv(s) && agentId in s.actors && p.Started? && !Orderly(s, e, agentId, p.feed)
    requires Bookkept(s.link, agentId, p, s.actors[agentId].history)
    requires forall a :: a in s.actors ==> Genuine(s.actors[a].history)
    ensures Bookkept(Step(s, e).link, agentId, p, s.actors[agentId].history)
    ensures Step(s, e).actors == s.actors && Step(s, e).client == s.client && OfLink(e)
  {
    hide Inv, Bookkept, Emit, SendGap, TakeUpdate, Genuine, Current;
    var h := s.actors[agentId].history;
    if e.ServerEmits? {
      EmitBooks(s.link, s.laneCapacity, agentId, p, h);
    } else if e.FeedSendsGap? {
      SendGapBooks(s.link, e.feed, s.laneCapacity, agentId, p, h);
    } else {
      PushingTurn(s.link, e.feed, e.flagged, s.laneCapacity);
      OtherPushBooks(s.link, e.feed, TakeUpdate(s.link, e.feed, e.flagged, s.laneCapacity), agentId, p, h);
    }
  }

  /** A recorded update offers itself to every queue and extends one history. */
  lemma RecordedTracks(s: System, recorder: AgentId, update: AgentUpdate, agentId: AgentId, p: Progress)
    requires Inv(s) && recorder in s.actors && Tracks(s, agentId, p)
    requires IsNext(Current(s.actors[recorder].history), update)
    requires forall a :: a in s.actors ==> Genuine(s.actors[a].history)
    ensures Tracks(Recorded(s, recorder, update), agentId, p)
  {
    hide Inv, IsNext, Genuine, LinkTracks, ClientTracks, Quiet, Offer, At, ShareOf;
    var after := Recorded(s, recorder, update);
    var capacity := s.actors[recorder].queueCapacity;
    if p.Started? {
      var h := s.actors[agentId].history;
      assert after.actors[agentId].history == h || after.actors[agentId].history == Extend(h, update);
      OfferTracks(s.link, update, capacity, agentId, p, h);
      LinkTracksGrowth(after.link, agentId, p, h, after.actors[agentId].history);
      TakenInLog(s.link, agentId, p, h);
      ClientTracksGrowth(s.client, agentId, p, h, after.actors[agentId].history);
    } else {
      OfferKeepsQuiet(s.link, update, capacity, agentId);
    }
  }

  lemma TakenInLog(link: Link, agentId: AgentId, p: Progress, h: History)
    requires p.Started? && LinkTracks(link, agentId, p, h)
    ensures p.first <= p.taken <= p.pushed <= |h.log| && Bookkept(link, agentId, p, h)
  {
    hide OnTheWay, EmissionTracks;
  }

  lemma ActorStepTracks(s: System, e: Event, agentId: AgentId, p: Progress)
    requires Inv(s) && Tracks(s, agentId, p) && (e.Launch? || e.ActorChanges? || e.ActorPublishes?)
    requires forall a :: a in s.actors ==> Genuine(s.actors[a].history)
    ensures Tracks(Step(s, e), agentId, p)
  {
    hide Inv, IsNext, Genuine, LinkTracks, ClientTracks, Quiet, Recorded, DeltaFor, EventFor, At, ShareOf;
    match e {
      case ActorChanges(recorder, change) =>
        if recorder in s.actors {
          RecordedUpdatesAreNext(Current(s.actors[recorder].history), change, OtherMessage(""));
          var d := DeltaFor(Current(s.actors[recorder].history), change);
          if d.Ok? && d.value.Some? {
            RecordedTracks(s, recorder, d.value.value, agentId, p);
          }
        }
      case ActorPublishes(recorder, event) =>
        if recorder in s.actors {
          RecordedUpdatesAreNext(Current(s.actors[recorder].history), SessionCleared, event);
          var u := EventFor(Current(s.actors[recorder].history), event);
          if u.Ok? {
            RecordedTracks(s, recorder, u.value, agentId, p);
          }
        }
      case Launch(_, _, _) =>
    }
  }

  /** The server takes a request that does not subscribe the agent. */
  lemma RequestStepTracks(s: System, agentId: AgentId, p: Progress)
    requires Inv(s) && Tracks(s, agentId, p) && !Answers(s, agentId)
    requires forall a :: a in s.actors ==> Genuine(s.actors[a].history)
    ensures Tracks(Step(s, ServerTakesRequest), agentId, p)
  {
    hide Inv, Genuine, LinkTracks, ClientTracks, Quiet, TakeRequest, At, Answers, ShareOf;
    if s.link.inbox != [] && s.link.emission.None? {
      ForeignRequest(s, agentId);
      if p.Started? {
        ForeignRequestTracks(s, agentId, p);
      } else {
        ForeignRequestKeepsQuiet(s, agentId);
      }
    }
  }

  lemma ClientStepTracks(s: System, agentId: AgentId, p: Progress)
    requires Inv(s) && Tracks(s, agentId, p) && p.Started? && s.link.wire != []
    requires forall a :: a in s.actors ==> Genuine(s.actors[a].history)
    ensures Tracks(Step(s, ClientTakesFrame), agentId, Progressed(s, ClientTakesFrame, agentId, p))
  {
    hide Inv, Genuine, LinkTracks, ClientTracks, Concerns, Reduce, At, Resubscriptions;
    hide HoldsPast, FrameOf, CutsStart, Overtakes;
    var frame := s.link.wire[0];
    var after := Step(s, ClientTakesFrame);
    var h := s.actors[agentId].history;
    TakenInLog(s.link, agentId, p, h);
    WireTracks(s.link, after.link, agentId, p, h);
    if !Concerns(frame, agentId) {
      ElsewhereTracks(s.client, frame, agentId, p, h);
    } else if p.left != [] {
      TakesLeft(s.client, frame, agentId, p, h);
    } else {
      HistoryBelongs(s, agentId);
      ClientHoldsPast(s, agentId);
      TakesUpdate(s.client, agentId, p, h);
    }
  }

  lemma ClientHoldsPast(s: System, agentId: AgentId)
    requires Inv(s) && agentId in s.actors
    ensures HoldsPast(s.client, s.actors[agentId].history)
  {
    hide IsPast;
    HistoryBelongs(s, agentId);
    if agentId in s.client.agents {
      assert GenuineSnapshot(s.actors, s.client.agents[agentId]);
    }
  }

  lemma AdriftClientStep(s: System, agentId: AgentId)
    requires Inv(s) && Quiet(s.link, agentId)
    requires forall a :: a in s.actors ==> Genuine(s.actors[a].history)
    ensures Quiet(Step(s, ClientTakesFrame).link, agentId)
    ensures ShareOf(Step(s, ClientTakesFrame).client, agentId) == ShareOf(s.client, agentId)
  {
    hide Inv, Genuine, Quiet, Concerns, Reduce, Resubscriptions, ShareOf;
    if s.link.wire != [] {
      var after := Step(s, ClientTakesFrame);
      WireKeepsQuiet(s.link, after.link, agentId);
      TakesElsewhere(s.client, s.link.wire[0], agentId);
    }
  }

  lemma AdriftStep(s: System, e: Event, agentId: AgentId, p: Progress)
    requires Inv(s) && Tracks(s, agentId, p) && p.Adrift? && !e.ConnectionLost?
    requires !(e.ServerTakesRequest? && Answers(s, agentId))
    requires forall a :: a in s.actors ==> Genuine(s.actors[a].history)
    ensures Tracks(Step(s, e), agentId, p)
  {
    hide Inv, Genuine, Step, Answers, Quiet, ShareOf;
    if OfLink(e) {
      LinkEventsKeepRest(s, e);
      AdriftLinkStep(s, e, agentId);
    } else {
      match e {
        case ServerTakesRequest => RequestStepTracks(s, agentId, p);
        case ClientTakesFrame => AdriftClientStep(s, agentId);
        case _ => ActorStepTracks(s, e, agentId, p);
      }
    }
  }

  /** A started subscription over a step that neither answers another one nor breaks the order. */
  lemma OrderlyStep(s: System, e: Event, agentId: AgentId, p: Progress)
    requires Inv(s) && Tracks(s, agentId, p) && p.Started? && !e.ConnectionLost?
    requires !(e.ServerTakesRequest? && Answers(s, agentId)) && Orderly(s, e, agentId, p.feed)
    requires forall a :: a in s.actors ==> Genuine(s.actors[a].history)
    ensures Tracks(Step(s, e), agentId, Progressed(s, e, agentId, p))
  {
    hide Inv, Genuine, Step, Answers, LinkTracks, ClientTracks, Pushes, Overtakes, Disturbs;
    if OfLink(e) {
      LinkEventsKeepRest(s, e);
      if e.FeedTakes? {
        OrderlyTurn(s, e, agentId, p);
      } else {
        OrderlyLinkStep(s, e, agentId, p);
      }
      TakenInLog(s.link, agentId, p, s.actors[agentId].history);
      SameClientTracks(s.client, agentId, p, Progressed(s, e, agentId, p), s.actors[agentId].history);
    } else {
      match e {
        case ServerTakesRequest => RequestStepTracks(s, agentId, p);
        case ClientTakesFrame => if s.link.wire == [] { NothingToTake(s); } else { ClientStepTracks(s, agentId, p); }
        case _ => ActorStepTracks(s, e, agentId, p);
      }
    }
  }

  lemma NothingToTake(s: System)
    requires s.link.wire == [] && forall a :: a in s.actors ==> Genuine(s.actors[a].history)
    ensures Step(s, ClientTakesFrame) == s
  {
    hide Genuine;
  }

  lemma SameClientTracks(client: Replica, agentId: AgentId, p: Progress, q: Progress, h: History)
    requires p.Started? && q.Started? && q == p.(pushed := q.pushed)
    requires p.first <= p.taken <= |h.log| && ClientTracks(client, agentId, p, h)
    ensures ClientTracks(client, agentId, q, h)
  {
    hide At, ShareOf, Follow;
  }

  lemma LossStep(s: System)
    requires forall a :: a in s.actors ==> Genuine(s.actors[a].history)
    ensures Step(s, ConnectionLost) == s.(link := NO_LINK)
  {
    hide Genuine;
  }

  lemma AnswerStep(s: System, agentId: AgentId)
    requires Answers(s, agentId) && forall a :: a in s.actors ==> Genuine(s.actors[a].history)
    ensures Step(s, ServerTakesRequest) == TakeRequest(s)
  {
    hide Genuine, TakeRequest;
  }

  lemma ProgressedWhen(s: System, e: Event, agentId: AgentId, p: Progress)
    requires Inv(s) && forall a :: a in s.actors ==> Genuine(s.actors[a].history)
    ensures var q := Progressed(s, e, agentId, p);
            if e.ConnectionLost? then q == Adrift(ShareOf(s.client, agentId))
            else if e.ServerTakesRequest? && Answers(s, agentId) then
              q == Restart(Step(s, e), agentId, s.link.nextFeed, |s.actors[agentId].history.log|)
            else if p.Adrift? then q == p
            else !Orderly(s, e, agentId, p.feed) ==> q == Restart(Step(s, e), agentId, p.feed, p.pushed)
  {
    hide Inv, Genuine, Step, ShareOf, Disturbs, Overtakes, Settled, OnTheWay;
  }

  lemma LosingKeepsTrack(s: System, agentId: AgentId)
    requires forall a :: a in s.actors ==> Genuine(s.actors[a].history)
    ensures Tracks(Step(s, ConnectionLost), agentId, Adrift(ShareOf(s.client, agentId)))
  {
    hide Genuine, Step, Quiet, ShareOf;
    LossStep(s);
    NoLinkIsQuiet(agentId);
  }

  lemma DisorderlyStep(s: System, e: Event, agentId: AgentId, p: Progress)
    requires Inv(s) && Tracks(s, agentId, p) && p.Started? && !Orderly(s, e, agentId, p.feed)
    requires forall a :: a in s.actors ==> Genuine(s.actors[a].history)
    ensures Tracks(Step(s, e), agentId, Restart(Step(s, e), agentId, p.feed, p.pushed))
  {
    hide Inv, Genuine, Step, LinkTracks, ClientTracks, Orderly, Settled, OnTheWay;
    TakenInLog(s.link, agentId, p, s.actors[agentId].history);
    DisorderlyBooks(s, e, agentId, p);
    RestartTracks(Step(s, e), agentId, p);
  }

  /** Every step keeps track, whatever it is. */
  lemma StepKeepsTrack(s: System, e: Event, agentId: AgentId, p: Progress)
    requires Inv(s) && Tracks(s, agentId, p)
    ensures forall a :: a in s.actors ==> Genuine(s.actors[a].history)
    ensures Tracks(Step(s, e), agentId, Progressed(s, e, agentId, p))
  {
    InvMeansGenuine(s);
    hide Inv, Genuine, Step, Tracks, Progressed, Orderly, ShareOf, TakeRequest, Restart;
    ProgressedWhen(s, e, agentId, p);
    if e.ConnectionLost? {
      LosingKeepsTrack(s, agentId);
    } else if e.ServerTakesRequest? && Answers(s, agentId) {
      AnswerTracks(s, agentId);
      AnswerStep(s, agentId);
    } else if p.Adrift? {
      AdriftStep(s, e, agentId, p);
    } else if Orderly(s, e, agentId, p.feed) {
      OrderlyStep(s, e, agentId, p);
    } else {
      DisorderlyStep(s, e, agentId, p);
    }
  }

  // ----- over whole runs -----

  /** Where the subscription stands after these events. */
  function ProgressAfter(s: System, p: Progress, events: seq<Event>, agentId: AgentId): Progress
    requires Inv(s)
  {
    if events == [] then p
    else
      var before := events[..|events| - 1];
      Progressed(Run(s, before), events[|events| - 1], agentId, ProgressAfter(s, p, before, agentId))
  }

  lemma {:induction false} RunKeepsTrack(s: System, p: Progress, events: seq<Event>, agentId: AgentId)
    requires Inv(s) && Tracks(s, agentId, p)
    ensures Tracks(Run(s, events), agentId, ProgressAfter(s, p, events, agentId))
  {
    hide Inv, Step, Tracks, Progressed, Run, ProgressAfter;
    if events == [] {
      NothingYet(s, p, agentId);
    } else {
      var before := events[..|events| - 1];
      RunKeepsTrack(s, p, before, agentId);
      StepKeepsTrack(Run(s, before), events[|events| - 1], agentId, ProgressAfter(s, p, before, agentId));
      LastOf(s, p, events, agentId);
    }
  }

  lemma NothingYet(s: System, p: Progress, agentId: AgentId)
    requires Inv(s)
    ensures Run(s, []) == s && ProgressAfter(s, p, [], agentId) == p
  {
  }

  lemma LastOf(s: System, p: Progress, events: seq<Event>, agentId: AgentId)
    requires Inv(s) && events != []
    ensures var before := events[..|events| - 1];
            var moment := Run(s, before);
            && (forall a :: a in moment.actors ==> Genuine(moment.actors[a].history))
            && Run(s, events) == Step(moment, events[|events| - 1])
            && ProgressAfter(s, p, events, agentId)
               == Progressed(moment, events[|events| - 1], agentId, ProgressAfter(s, p, before, agentId))
  {
    hide Inv, Step, Progressed, Genuine;
    InvMeansGenuine(Run(s, events[..|events| - 1]));
  }

  /** Before anything happened the client holds nothing and nothing can arrive. */
  const NOTHING := Adrift(Share(None, false))

  lemma FreshTracks(laneCapacity: nat, agentId: AgentId)
    ensures Tracks(Fresh(laneCapacity), agentId, NOTHING)
  {
    NoLinkIsQuiet(agentId);
  }

  /** What the client holds, as far as its latest subscription decides it. */
  predicate FollowsItsStart(s: System, agentId: AgentId, p: Progress) {
    if p.Adrift? then OnTheWay(s.link, agentId) == [] && ShareOf(s.client, agentId) == p.share
    else
      && agentId in s.actors
      && var h := s.actors[agentId].history;
         && p.first <= p.taken <= p.pushed <= |h.log|
         && OnTheWay(s.link, agentId) == p.left + LogFrames(h.log, p.taken, p.pushed)
         && (p.left != [] ==> p.taken == p.first && ShareOf(ReduceAll(s.client, p.left), agentId) == p.ends)
         && (p.left == [] ==> ShareOf(s.client, agentId) == Follow(h, p.ends, p.first, p.taken))
  }

  lemma TracksMeans(s: System, agentId: AgentId, p: Progress)
    requires Tracks(s, agentId, p)
    ensures FollowsItsStart(s, agentId, p)
  {
    hide OnTheWay, At, ShareOf, OwnFeed, EmissionTracks;
    assert ReduceAll(s.client, []) == s.client;
  }

  /**
   * Over every run from the start: a client which nothing can reach keeps exactly what it has. After
   * the start of its latest subscription a client is exactly as far as the live updates it has taken
   * since, if the start left it in step, and otherwise was flagged by the first of them.
   */
  lemma ClientFollowsItsStart(laneCapacity: nat, events: seq<Event>, agentId: AgentId)
    ensures FollowsItsStart(Run(Fresh(laneCapacity), events), agentId,
              ProgressAfter(Fresh(laneCapacity), NOTHING, events, agentId))
  {
    hide Inv, Step, Tracks, FollowsItsStart;
    FreshTracks(laneCapacity, agentId);
    RunKeepsTrack(Fresh(laneCapacity), NOTHING, events, agentId);
    TracksMeans(Run(Fresh(laneCapacity), events), agentId, ProgressAfter(Fresh(laneCapacity), NOTHING, events, agentId));
  }
}
