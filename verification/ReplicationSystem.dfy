/**
 * The whole replication path as a state machine: agent actors, the subscription loops of one
 * connection, its three bounded priority lanes, the socket, and the client's reducer, interleaved
 * arbitrarily with lost connections.
 */
module ReplicationSystem {
  import opened Prelude
  import opened ControlState
  import opened ActorHistory
  import opened Reducer

  datatype Actor = Actor(history: History, replayCapacity: nat, queueCapacity: nat)

  datatype GapPhase = NoGap | ReadingSnapshot | Sending(snapshot: AgentSnapshot)

  /**
   * A subscription: the actor's bounded queue and the loop that drains it. `position` counts the
   * log entries before the front of the queue. The loop runs once the start has been emitted.
   */
  datatype Feed = Feed(
    agentId: AgentId, position: nat, queue: seq<AgentUpdate>,
    registered: bool, overflowed: bool, live: bool, aborted: bool, gap: GapPhase)

  datatype Lane = ControlLane | StateLane

  datatype LaneSend = LaneSend(lane: Lane, frame: ServerFrame)

  datatype Emission = Emission(feed: nat, remaining: seq<LaneSend>)

  datatype Request = Subscribe(agentId: AgentId, cursor: Option<SubscriptionCursor>) | Unsubscribe(agentId: AgentId)

  datatype Link = Link(
    inbox: seq<Request>,
    feeds: map<nat, Feed>,
    nextFeed: nat,
    subscriptions: map<AgentId, nat>,
    emission: Option<Emission>,
    control: seq<ServerFrame>,
    response: seq<ServerFrame>,
    state: seq<ServerFrame>,
    wire: seq<ServerFrame>)

  datatype System = System(actors: map<AgentId, Actor>, laneCapacity: nat, link: Link, client: Replica)

  datatype Event =
    | Launch(snapshot: AgentSnapshot, replayCapacity: nat, queueCapacity: nat)
    | ActorChanges(agentId: AgentId, change: AgentStateChange)
    | ActorPublishes(agentId: AgentId, event: ServerMessage)
    | ClientSubscribes(agentId: AgentId, resume: bool)
    | ClientUnsubscribes(agentId: AgentId)
    | ServerTakesRequest
    | ServerEmits
    | ServerReplies(urgent: bool)
    | FeedTakes(feed: nat, flagged: bool)
    | FeedReadsSnapshot(feed: nat)
    | FeedSendsGap(feed: nat)
    | FeedStops(feed: nat)
    | WriterSends
    | ClientTakesFrame
    | ConnectionLost

  const NO_LINK := Link([], map[], 0, map[], None, [], [], [], [])

  // ----- what the server puts on its lanes -----

  function FramesOf(updates: seq<AgentUpdate>): seq<LaneSend> {
    seq(|updates|, i requires 0 <= i < |updates| => LaneSend(StateLane, FrameOf(updates[i])))
  }

  function StartSends(start: SubscriptionStart): seq<LaneSend> {
    match start
    case Snapshot(snapshot) => [LaneSend(StateLane, SnapshotFrame([snapshot]))]
    case Replay(updates) => FramesOf(updates)
    case ResyncRequired(snapshot) =>
      [LaneSend(ControlLane, ReplayGap(snapshot.agentId, snapshot.revision, snapshot.eventSequence, NonContiguousCursor)),
       LaneSend(StateLane, SnapshotFrame([snapshot]))]
  }

  // ----- steps -----

  /** The actor's fan-out to one queue: a full queue is flagged and dropped from the actor's list. */
  function Offer(f: Feed, update: AgentUpdate, capacity: nat): Feed {
    if !f.registered || f.agentId != update.Agent() then f
    else if |f.queue| < capacity then f.(queue := f.queue + [update])
    else f.(registered := false, overflowed := true)
  }

  function Recorded(s: System, agentId: AgentId, update: AgentUpdate): System
    requires agentId in s.actors
  {
    var actor := s.actors[agentId];
    s.(actors := s.actors[agentId := actor.(history := Extend(actor.history, update))],
       link := s.link.(feeds := map id | id in s.link.feeds :: Offer(s.link.feeds[id], update, actor.queueCapacity)))
  }

  function Abort(link: Link, agentId: AgentId): Link {
    if agentId in link.subscriptions && link.subscriptions[agentId] in link.feeds then
      var id := link.subscriptions[agentId];
      link.(subscriptions := link.subscriptions - {agentId},
            feeds := link.feeds[id := link.feeds[id].(aborted := true)])
    else link.(subscriptions := link.subscriptions - {agentId})
  }

  function TakeRequest(s: System): System
    requires s.link.inbox != [] && forall a :: a in s.actors ==> Genuine(s.actors[a].history)
  {
    var rest := s.link.(inbox := s.link.inbox[1..]);
    match s.link.inbox[0]
    case Unsubscribe(agentId) => s.(link := Abort(rest, agentId))
    case Subscribe(agentId, cursor) =>
      if agentId !in s.actors then
        if |rest.control| < s.laneCapacity then s.(link := rest.(control := rest.control + [OtherFrame])) else s
      else
        var actor := s.actors[agentId];
        var start := StartFor(actor.history, actor.replayCapacity, cursor);
        var feed := Feed(agentId, |actor.history.log|, [], true, false, false, false, NoGap);
        var cleared := Abort(rest, agentId);
        s.(link := cleared.(
             feeds := cleared.feeds[cleared.nextFeed := feed],
             nextFeed := cleared.nextFeed + 1,
             emission := Some(Emission(cleared.nextFeed, StartSends(start)))))
  }

  /** Emit the next frame of a start; a full control lane waits, a full state lane abandons the rest. */
  function Emit(link: Link, capacity: nat): Link
    requires link.emission.Some?
  {
    var Emission(id, remaining) := link.emission.value;
    if remaining == [] then
      if id in link.feeds then
        link.(emission := None, feeds := link.feeds[id := link.feeds[id].(live := true)],
              subscriptions := link.subscriptions[link.feeds[id].agentId := id])
      else link.(emission := None)
    else if remaining[0].lane == ControlLane then
      if |link.control| < capacity then
        link.(control := link.control + [remaining[0].frame], emission := Some(Emission(id, remaining[1..])))
      else link
    else if |link.state| < capacity then
      link.(state := link.state + [remaining[0].frame], emission := Some(Emission(id, remaining[1..])))
    else link.(emission := Some(Emission(id, [])))
  }

  /** One turn of a subscription's loop: `flagged` is the overflow flag it read before looking at the queue. */
  function TakeUpdate(link: Link, id: nat, flagged: bool, capacity: nat): Link
    requires id in link.feeds
  {
    var f := link.feeds[id];
    if !f.live || f.gap != NoGap || (flagged && !f.overflowed) then link
    else if flagged || (f.queue == [] && f.overflowed) then link.(feeds := link.feeds[id := f.(gap := ReadingSnapshot)])
    else if f.queue == [] then link
    else
      var taken := f.(queue := f.queue[1..], position := f.position + 1);
      if |link.state| < capacity then
        link.(state := link.state + [FrameOf(f.queue[0])], feeds := link.feeds[id := taken])
      else link.(feeds := link.feeds[id := taken.(gap := ReadingSnapshot)])
  }

  /** A slow consumer's loop first asks the actor for its snapshot, then waits for the control lane. */
  function ReadSnapshot(link: Link, id: nat, current: AgentSnapshot): Link
    requires id in link.feeds
  {
    if link.feeds[id].gap != ReadingSnapshot then link
    else link.(feeds := link.feeds[id := link.feeds[id].(gap := Sending(current))])
  }

  function SendGap(link: Link, id: nat, capacity: nat): Link
    requires id in link.feeds
  {
    if !link.feeds[id].gap.Sending? || |link.control| >= capacity then link
    else
      var snapshot := link.feeds[id].gap.snapshot;
      link.(control := link.control
              + [ReplayGap(snapshot.agentId, snapshot.revision, snapshot.eventSequence, SlowConsumer)],
            feeds := link.feeds - {id})
  }

  /** Pongs and errors travel on the control lane, responses on their own. */
  function Reply(link: Link, urgent: bool, capacity: nat): Link {
    if urgent && |link.control| < capacity then link.(control := link.control + [OtherFrame])
    else if !urgent && |link.response| < capacity then link.(response := link.response + [OtherFrame])
    else link
  }

  /** The writer always prefers the control lane, then responses, then sequenced state. */
  function Write(link: Link): Link {
    if link.control != [] then link.(wire := link.wire + [link.control[0]], control := link.control[1..])
    else if link.response != [] then link.(wire := link.wire + [link.response[0]], response := link.response[1..])
    else if link.state != [] then link.(wire := link.wire + [link.state[0]], state := link.state[1..])
    else link
  }

  /** A gap or a rejected update makes the client ask for that agent again, without a cursor. */
  function Resubscriptions(client: Replica, frame: ServerFrame): seq<Request> {
    if frame.ReplayGap? then [Subscribe(frame.agentId, None)]
    else if OutcomeOf(client, frame).Err? then [Subscribe(UpdateIn(frame).value.Agent(), None)]
    else []
  }

  function Step(s: System, e: Event): System
    requires forall a :: a in s.actors ==> Genuine(s.actors[a].history)
  {
    var link := s.link;
    match e
    case Launch(snapshot, replayCapacity, queueCapacity) =>
      if snapshot.agentId in s.actors || replayCapacity == 0 || queueCapacity == 0 then s
      else s.(actors := s.actors[snapshot.agentId := Actor(History(snapshot, []), replayCapacity, queueCapacity)])
    case ActorChanges(agentId, change) =>
      if agentId !in s.actors then s
      else
        var d := DeltaFor(Current(s.actors[agentId].history), change);
        if d.Ok? && d.value.Some? then Recorded(s, agentId, d.value.value) else s
    case ActorPublishes(agentId, event) =>
      if agentId !in s.actors then s
      else
        var u := EventFor(Current(s.actors[agentId].history), event);
        if u.Ok? then Recorded(s, agentId, u.value) else s
    case ClientSubscribes(agentId, resume) =>
      var cursor := if resume then Cursor(s.client, agentId) else None;
      s.(link := link.(inbox := link.inbox + [Subscribe(agentId, cursor)]))
    case ClientUnsubscribes(agentId) => s.(link := link.(inbox := link.inbox + [Unsubscribe(agentId)]))
    case ServerTakesRequest => if link.inbox == [] || link.emission.Some? then s else TakeRequest(s)
    case ServerEmits => if link.emission.None? then s else s.(link := Emit(link, s.laneCapacity))
    case ServerReplies(urgent) => s.(link := Reply(link, urgent, s.laneCapacity))
    case FeedTakes(id, flagged) =>
      if id in link.feeds then s.(link := TakeUpdate(link, id, flagged, s.laneCapacity)) else s
    case FeedReadsSnapshot(id) =>
      if id in link.feeds && link.feeds[id].agentId in s.actors then
        s.(link := ReadSnapshot(link, id, Current(s.actors[link.feeds[id].agentId].history)))
      else s
    case FeedSendsGap(id) =>
      if id in link.feeds then s.(link := SendGap(link, id, s.laneCapacity)) else s
    case FeedStops(id) =>
      if id in link.feeds && link.feeds[id].aborted then s.(link := link.(feeds := link.feeds - {id})) else s
    case WriterSends => s.(link := Write(link))
    case ClientTakesFrame =>
      if link.wire == [] then s
      else
        var frame := link.wire[0];
        s.(client := Reduce(s.client, frame),
           link := link.(wire := link.wire[1..], inbox := link.inbox + Resubscriptions(s.client, frame)))
    case ConnectionLost => s.(link := NO_LINK)
  }

  // ----- the invariant -----

  predicate GenuineFrame(actors: map<AgentId, Actor>, frame: ServerFrame) {
    match frame
    case SnapshotFrame(agents) => forall s :: s in agents ==> GenuineSnapshot(actors, s)
    case ReplayGap(_, _, _, _) => true
    case OtherFrame => true
    case _ => GenuineUpdate(actors, UpdateIn(frame).value) && frame == FrameOf(UpdateIn(frame).value)
  }

  predicate GenuineSnapshot(actors: map<AgentId, Actor>, s: AgentSnapshot) {
    s.agentId in actors && IsPast(actors[s.agentId].history, s)
  }

  predicate GenuineUpdate(actors: map<AgentId, Actor>, update: AgentUpdate) {
    update.Agent() in actors && IsRecorded(actors[update.Agent()].history, update)
  }

  predicate AllGenuine(actors: map<AgentId, Actor>, frames: seq<ServerFrame>) {
    forall i :: 0 <= i < |frames| ==> GenuineFrame(actors, frames[i])
  }

  predicate ActorOk(agentId: AgentId, actor: Actor) {
    Genuine(actor.history) && actor.history.base.agentId == agentId
    && actor.replayCapacity > 0 && actor.queueCapacity > 0
  }

  /** What a feed still holds is a gap-free stretch of the log, reaching its end while registered. */
  predicate FeedOk(actors: map<AgentId, Actor>, f: Feed) {
    && f.agentId in actors
    && var log := actors[f.agentId].history.log;
       && f.position <= |log|
       && f.queue <= log[f.position..]
       && (f.registered ==> f.queue == log[f.position..] && !f.overflowed)
       && |f.queue| <= actors[f.agentId].queueCapacity
       && (f.gap.Sending? ==> f.gap.snapshot.agentId == f.agentId)
  }

  predicate ActorsOk(actors: map<AgentId, Actor>) {
    forall a :: a in actors ==> ActorOk(a, actors[a])
  }

  predicate FeedsOk(actors: map<AgentId, Actor>, feeds: map<nat, Feed>) {
    forall id :: id in feeds ==> FeedOk(actors, feeds[id])
  }

  predicate EmissionOk(actors: map<AgentId, Actor>, emission: Option<Emission>) {
    emission.Some? ==>
      forall i :: 0 <= i < |emission.value.remaining| ==> GenuineFrame(actors, emission.value.remaining[i].frame)
  }

  /** Each snapshot the client holds, flagged or not, is one its agent's actor really had at that event sequence. */
  predicate ClientOk(actors: map<AgentId, Actor>, client: Replica) {
    forall a :: a in client.agents ==> client.agents[a].agentId == a && GenuineSnapshot(actors, client.agents[a])
  }

  predicate LinkOk(actors: map<AgentId, Actor>, link: Link) {
    && AllGenuine(actors, link.control) && AllGenuine(actors, link.response)
    && AllGenuine(actors, link.state) && AllGenuine(actors, link.wire)
    && EmissionOk(actors, link.emission)
    && FeedsOk(actors, link.feeds)
    && (forall id :: id in link.feeds ==> id < link.nextFeed)
    && (link.emission.Some? ==> link.emission.value.feed < link.nextFeed)
  }

  predicate Inv(s: System) {
    && ActorsOk(s.actors)
    && LinkOk(s.actors, s.link)
    && ClientOk(s.actors, s.client)
  }

  predicate IsInitial(s: System) {
    s.actors == map[] && s.link == NO_LINK && s.client == Replica(map[], {})
  }

  // ----- the actors only grow -----

  ghost predicate Grew(before: map<AgentId, Actor>, after: map<AgentId, Actor>) {
    forall a :: a in before ==> a in after && ActorGrew(before[a], after[a])
  }

  ghost predicate ActorGrew(before: Actor, after: Actor) {
    && after.replayCapacity == before.replayCapacity && after.queueCapacity == before.queueCapacity
    && (after.history == before.history
        || exists update :: IsNext(Current(before.history), update) && after.history == Extend(before.history, update))
  }

  lemma GrowthKeepsSnapshot(before: map<AgentId, Actor>, after: map<AgentId, Actor>, s: AgentSnapshot)
    requires ActorsOk(before) && Grew(before, after) && GenuineSnapshot(before, s)
    ensures GenuineSnapshot(after, s)
  {
    hide IsNext, IsPast;
    assert ActorGrew(before[s.agentId], after[s.agentId]);
    var h := before[s.agentId].history;
    if after[s.agentId].history != h {
      var update :| IsNext(Current(h), update) && after[s.agentId].history == Extend(h, update);
      PastStaysPast(h, update, s);
    }
  }

  lemma GrowthKeepsUpdate(before: map<AgentId, Actor>, after: map<AgentId, Actor>, update: AgentUpdate)
    requires ActorsOk(before) && Grew(before, after) && GenuineUpdate(before, update)
    ensures GenuineUpdate(after, update)
  {
    hide IsNext, Advance;
    assert ActorGrew(before[update.Agent()], after[update.Agent()]);
  }

  lemma GrowthKeepsFrames(before: map<AgentId, Actor>, after: map<AgentId, Actor>, frames: seq<ServerFrame>)
    requires ActorsOk(before) && Grew(before, after) && AllGenuine(before, frames)
    ensures AllGenuine(after, frames)
  {
    hide ActorsOk, Grew, GenuineSnapshot, GenuineUpdate;
    forall i | 0 <= i < |frames| ensures GenuineFrame(after, frames[i]) {
      assert GenuineFrame(before, frames[i]);
      GrowthKeepsFrame(before, after, frames[i]);
    }
  }

  lemma GrowthKeepsFrame(before: map<AgentId, Actor>, after: map<AgentId, Actor>, frame: ServerFrame)
    requires ActorsOk(before) && Grew(before, after) && GenuineFrame(before, frame)
    ensures GenuineFrame(after, frame)
  {
    hide ActorsOk, Grew, GenuineSnapshot, GenuineUpdate;
    if frame.SnapshotFrame? {
      forall s | s in frame.agents ensures GenuineSnapshot(after, s) {
        GrowthKeepsSnapshot(before, after, s);
      }
    } else if UpdateIn(frame).Some? {
      GrowthKeepsUpdate(before, after, UpdateIn(frame).value);
    }
  }

  lemma GrowthKeepsClient(before: map<AgentId, Actor>, after: map<AgentId, Actor>, client: Replica)
    requires ActorsOk(before) && Grew(before, after) && ClientOk(before, client)
    ensures ClientOk(after, client)
  {
    hide ActorsOk, Grew, GenuineSnapshot;
    forall a | a in client.agents
      ensures client.agents[a].agentId == a && GenuineSnapshot(after, client.agents[a])
    {
      GrowthKeepsSnapshot(before, after, client.agents[a]);
    }
  }

  lemma GrowthKeepsLanes(before: map<AgentId, Actor>, after: map<AgentId, Actor>, link: Link)
    requires ActorsOk(before) && Grew(before, after) && LinkOk(before, link)
    ensures AllGenuine(after, link.control) && AllGenuine(after, link.response)
    ensures AllGenuine(after, link.state) && AllGenuine(after, link.wire)
    ensures EmissionOk(after, link.emission)
  {
    hide ActorsOk, Grew, GenuineFrame, AllGenuine;
    GrowthKeepsFrames(before, after, link.control);
    GrowthKeepsFrames(before, after, link.response);
    GrowthKeepsFrames(before, after, link.state);
    GrowthKeepsFrames(before, after, link.wire);
    if link.emission.Some? {
      var remaining := link.emission.value.remaining;
      forall i | 0 <= i < |remaining| ensures GenuineFrame(after, remaining[i].frame) {
        GrowthKeepsFrame(before, after, remaining[i].frame);
      }
    }
  }

  // ----- every step keeps the invariant -----

  /** A recorded update leaves every feed a gap-free stretch of the longer log. */
  lemma OfferKeepsFeed(actors: map<AgentId, Actor>, after: map<AgentId, Actor>, update: AgentUpdate, f: Feed)
    requires FeedOk(actors, f) && update.Agent() in actors
    requires var actor := actors[update.Agent()];
             after == actors[update.Agent() := actor.(history := Extend(actor.history, update))]
    ensures FeedOk(after, Offer(f, update, actors[update.Agent()].queueCapacity))
  {
    if f.agentId == update.Agent() {
      var log := actors[f.agentId].history.log;
      assert (log + [update])[f.position..] == log[f.position..] + [update];
    }
  }

  lemma RecordedKeepsInv(s: System, agentId: AgentId, update: AgentUpdate)
    requires Inv(s) && agentId in s.actors
    requires IsNext(Current(s.actors[agentId].history), update)
    ensures Inv(Recorded(s, agentId, update)) && Grew(s.actors, Recorded(s, agentId, update).actors)
  {
    hide IsNext, FeedOk, AllGenuine, EmissionOk, Genuine, GenuineSnapshot, At;
    var after := Recorded(s, agentId, update);
    var actor := s.actors[agentId];
    ExtendIsGenuine(actor.history, update);
    NextBelongs(actor.history, update);
    assert ActorOk(agentId, actor);
    assert ActorGrew(actor, after.actors[agentId]);
    GrowthKeepsLanes(s.actors, after.actors, s.link);
    GrowthKeepsClient(s.actors, after.actors, s.client);
    forall id | id in s.link.feeds ensures FeedOk(after.actors, after.link.feeds[id]) {
      OfferKeepsFeed(s.actors, after.actors, update, s.link.feeds[id]);
    }
  }

  lemma NextBelongs(h: History, update: AgentUpdate)
    requires Genuine(h) && IsNext(Current(h), update)
    ensures update.Agent() == h.base.agentId
  {
    hide Advance;
    CountersCount(h, |h.log|);
  }

  lemma StartIsGenuine(actors: map<AgentId, Actor>, agentId: AgentId, cursor: Option<SubscriptionCursor>)
    requires ActorsOk(actors) && agentId in actors
    ensures ActorOk(agentId, actors[agentId])
    ensures var sends := StartSends(StartFor(actors[agentId].history, actors[agentId].replayCapacity, cursor));
            forall i :: 0 <= i < |sends| ==> GenuineFrame(actors, sends[i].frame)
  {
    hide IsNext, Advance, Genuine, At, IsPast, IsRecorded, Replayable, FramesOf;
    var h := actors[agentId].history;
    assert ActorOk(agentId, actors[agentId]);
    CurrentIsPast(h);
    var start := StartFor(h, actors[agentId].replayCapacity, cursor);
    if start.Replay? {
      var first := cursor.value.eventSequence - h.base.eventSequence;
      ReplayInsideLog(h, actors[agentId].replayCapacity, cursor.value);
      SuffixIsGenuine(actors, agentId, first);
    } else {
      assert GenuineSnapshot(actors, Current(h));
    }
  }

  lemma ReplayInsideLog(h: History, capacity: nat, cursor: SubscriptionCursor)
    requires Genuine(h) && Replayable(h, capacity, cursor)
    ensures 0 <= cursor.eventSequence - h.base.eventSequence <= |h.log|
    ensures StartFor(h, capacity, Some(cursor)) == Replay(h.log[cursor.eventSequence - h.base.eventSequence..])
  {
    hide Advance, IsNext;
    CountersCount(h, |h.log|);
  }

  lemma SuffixIsGenuine(actors: map<AgentId, Actor>, agentId: AgentId, first: nat)
    requires agentId in actors && ActorOk(agentId, actors[agentId]) && first <= |actors[agentId].history.log|
    ensures var sends := FramesOf(actors[agentId].history.log[first..]);
            forall i :: 0 <= i < |sends| ==> GenuineFrame(actors, sends[i].frame)
  {
    hide IsNext, Advance, Genuine, IsRecorded;
    var h := actors[agentId].history;
    var sends := FramesOf(h.log[first..]);
    forall i | 0 <= i < |sends| ensures GenuineFrame(actors, sends[i].frame) {
      LogIsRecorded(h, first + i);
      FrameCarriesUpdate(h.log[first + i]);
    }
  }

  lemma CurrentIsPast(h: History)
    requires Genuine(h)
    ensures IsPast(h, Current(h)) && Current(h).agentId == h.base.agentId
  {
    hide Advance, IsNext;
    CountersCount(h, |h.log|);
  }

  lemma LogIsRecorded(h: History, k: nat)
    requires Genuine(h) && k < |h.log|
    ensures IsRecorded(h, h.log[k]) && h.log[k].Agent() == h.base.agentId
  {
    hide Advance;
    CountersCount(h, k);
    assert NextAt(h, k);
  }

  lemma TakeRequestKeepsInv(s: System)
    requires Inv(s) && s.link.inbox != [] && s.link.emission.None?
    requires forall a :: a in s.actors ==> Genuine(s.actors[a].history)
    ensures Inv(TakeRequest(s))
  {
    hide Genuine, StartFor, StartSends, GenuineSnapshot, GenuineUpdate, Current;
    var request := s.link.inbox[0];
    if request.Subscribe? && request.agentId in s.actors {
      StartIsGenuine(s.actors, request.agentId, request.cursor);
    }
  }

  lemma EmitKeepsInv(s: System)
    requires Inv(s) && s.link.emission.Some?
    ensures Inv(s.(link := Emit(s.link, s.laneCapacity)))
  {
    hide GenuineFrame, ActorsOk, ClientOk;
  }

  lemma FeedStepKeepsInv(s: System, id: nat, flagged: bool)
    requires Inv(s) && id in s.link.feeds
    ensures Inv(s.(link := TakeUpdate(s.link, id, flagged, s.laneCapacity)))
  {
    hide ActorsOk, ClientOk, GenuineFrame, EmissionOk, FeedOk, FrameOf;
    var f := s.link.feeds[id];
    GapKeepsFeed(s.actors, f, ReadingSnapshot);
    if f.queue != [] {
      FrontIsGenuine(s.actors, f);
      FrontTaken(s.actors, f);
      GapKeepsFeed(s.actors, f.(queue := f.queue[1..], position := f.position + 1), ReadingSnapshot);
    }
  }

  lemma FrontIsGenuine(actors: map<AgentId, Actor>, f: Feed)
    requires ActorsOk(actors) && FeedOk(actors, f) && f.queue != []
    ensures GenuineFrame(actors, FrameOf(f.queue[0]))
  {
    hide IsRecorded, Genuine;
    var h := actors[f.agentId].history;
    assert ActorOk(f.agentId, actors[f.agentId]);
    OkIsGenuine(f.agentId, actors[f.agentId]);
    assert f.queue[0] == h.log[f.position..][0];
    LogIsRecorded(h, f.position);
    FrameCarriesUpdate(f.queue[0]);
  }

  /** Without its front a queue starts one position later. */
  lemma FrontTaken(actors: map<AgentId, Actor>, f: Feed)
    requires FeedOk(actors, f) && f.queue != []
    ensures FeedOk(actors, f.(queue := f.queue[1..], position := f.position + 1))
  {
    var log := actors[f.agentId].history.log;
    assert log[f.position..][1..] == log[f.position + 1..];
    assert f.queue[1..] <= log[f.position..][1..];
  }

  lemma OkIsGenuine(agentId: AgentId, actor: Actor)
    requires ActorOk(agentId, actor)
    ensures Genuine(actor.history) && actor.history.base.agentId == agentId
  {
  }

  /** The reducer applied to a genuine frame leaves every held snapshot genuine. */
  lemma ReduceKeepsClient(actors: map<AgentId, Actor>, client: Replica, frame: ServerFrame)
    requires ActorsOk(actors) && ClientOk(actors, client) && GenuineFrame(actors, frame)
    ensures ClientOk(actors, Reduce(client, frame))
  {
    hide ActorsOk, IsPast, IsRecorded, Advance;
    if frame.SnapshotFrame? {
      InstallEffect(client, frame.agents);
    } else if UpdateIn(frame).Some? {
      var update := UpdateIn(frame).value;
      if Rejection(client, update).None? {
        AcceptedStaysGenuine(actors, client, update);
      }
    }
  }

  lemma AcceptedStaysGenuine(actors: map<AgentId, Actor>, client: Replica, update: AgentUpdate)
    requires ActorsOk(actors) && ClientOk(actors, client) && GenuineUpdate(actors, update)
    requires Rejection(client, update).None?
    ensures var next := Advance(client.agents[update.Agent()], update);
            next.agentId == update.Agent() && GenuineSnapshot(actors, next)
  {
    hide IsPast, IsRecorded, IsNext, ApplyChange;
    var a := update.Agent();
    assert ActorOk(a, actors[a]);
    PastStepsToPast(actors[a].history, client.agents[a], update);
    ApplyKeepsAgent(client.agents[a], update);
  }

  lemma ApplyKeepsAgent(s: AgentSnapshot, update: AgentUpdate)
    ensures Advance(s, update).agentId == s.agentId
  {
  }

  lemma ActorStepKeepsInv(s: System, e: Event)
    requires Inv(s) && (e.Launch? || e.ActorChanges? || e.ActorPublishes?)
    requires forall a :: a in s.actors ==> Genuine(s.actors[a].history)
    ensures Inv(Step(s, e)) && Grew(s.actors, Step(s, e).actors)
    ensures Step(s, e).laneCapacity == s.laneCapacity
  {
    hide Genuine, IsNext, DeltaFor, EventFor, Recorded, Inv, Current;
    match e {
      case Launch(_, _, _) =>
        LaunchKeepsInv(s, e);
        LaunchFrame(s, e);
      case ActorChanges(agentId, change) =>
        NothingGrew(s.actors);
        if agentId in s.actors {
          RecordedUpdatesAreNext(Current(s.actors[agentId].history), change, OtherMessage(""));
          var d := DeltaFor(Current(s.actors[agentId].history), change);
          if d.Ok? && d.value.Some? {
            RecordedKeepsInv(s, agentId, d.value.value);
            RecordedFrame(s, agentId, d.value.value);
          }
        }
      case ActorPublishes(agentId, event) =>
        NothingGrew(s.actors);
        if agentId in s.actors {
          RecordedUpdatesAreNext(Current(s.actors[agentId].history), SessionCleared, event);
          var u := EventFor(Current(s.actors[agentId].history), event);
          if u.Ok? {
            RecordedKeepsInv(s, agentId, u.value);
            RecordedFrame(s, agentId, u.value);
          }
        }
    }
  }

  lemma LaunchFrame(s: System, e: Event)
    requires e.Launch? && forall a :: a in s.actors ==> Genuine(s.actors[a].history)
    ensures Step(s, e).laneCapacity == s.laneCapacity
  {
    hide Genuine;
  }

  lemma NothingGrew(actors: map<AgentId, Actor>)
    ensures Grew(actors, actors)
  {
  }

  lemma ClientStepKeepsInv(s: System)
    requires Inv(s) && s.link.wire != []
    ensures var frame := s.link.wire[0];
            Inv(s.(client := Reduce(s.client, frame),
                   link := s.link.(wire := s.link.wire[1..], inbox := s.link.inbox + Resubscriptions(s.client, frame))))
  {
    hide Reduce, OutcomeOf, Resubscriptions, GenuineFrame, FeedsOk, EmissionOk;
    assert GenuineFrame(s.actors, s.link.wire[0]);
    ReduceKeepsClient(s.actors, s.client, s.link.wire[0]);
    assert AllGenuine(s.actors, s.link.wire[1..]);
  }

  lemma LinkStepKeepsInv(s: System, e: Event)
    requires Inv(s) && !(e.Launch? || e.ActorChanges? || e.ActorPublishes? || e.ClientTakesFrame? || e.ServerTakesRequest?)
    requires forall a :: a in s.actors ==> Genuine(s.actors[a].history)
    ensures Inv(Step(s, e)) && Step(s, e).actors == s.actors && Step(s, e).laneCapacity == s.laneCapacity
  {
    hide Genuine, Emit, TakeUpdate, Reply, ReadSnapshot, SendGap, Write, Cursor, Current, ActorsOk, ClientOk,
      AllGenuine, EmissionOk, FeedOk;
    match e {
      case ServerEmits => if s.link.emission.Some? { EmitKeepsInv(s); }
      case FeedTakes(id, flagged) => if id in s.link.feeds { FeedStepKeepsInv(s, id, flagged); }
      case ServerReplies(urgent) => ReplyKeepsLink(s.actors, s.link, urgent, s.laneCapacity);
      case FeedReadsSnapshot(id) =>
        if id in s.link.feeds && s.link.feeds[id].agentId in s.actors {
          var agentId := s.link.feeds[id].agentId;
          HistoryBelongs(s, agentId);
          CurrentIsPast(s.actors[agentId].history);
          ReadSnapshotKeepsLink(s.actors, s.link, id, Current(s.actors[agentId].history));
        }
      case FeedSendsGap(id) => if id in s.link.feeds { SendGapKeepsLink(s.actors, s.link, id, s.laneCapacity); }
      case WriterSends => WriteKeepsLink(s.actors, s.link);
      case FeedStops(_) =>
      case ClientSubscribes(_, _) =>
      case ClientUnsubscribes(_) =>
      case ConnectionLost => EmptyLinkOk(s.actors);
    }
  }

  lemma EmptyLinkOk(actors: map<AgentId, Actor>)
    ensures LinkOk(actors, NO_LINK)
  {
  }

  lemma HistoryBelongs(s: System, agentId: AgentId)
    requires Inv(s) && agentId in s.actors
    ensures Genuine(s.actors[agentId].history) && s.actors[agentId].history.base.agentId == agentId
  {
    assert ActorOk(agentId, s.actors[agentId]);
  }

  lemma StepKeepsInv(s: System, e: Event)
    requires Inv(s)
    requires forall a :: a in s.actors ==> Genuine(s.actors[a].history)
    ensures Inv(Step(s, e)) && Grew(s.actors, Step(s, e).actors)
    ensures Step(s, e).laneCapacity == s.laneCapacity
  {
    hide Genuine, Inv, TakeRequest, Reduce, Resubscriptions;
    NothingGrew(s.actors);
    match e {
      case Launch(_, _, _) => hide Step; ActorStepKeepsInv(s, e);
      case ActorChanges(_, _) => hide Step; ActorStepKeepsInv(s, e);
      case ActorPublishes(_, _) => hide Step; ActorStepKeepsInv(s, e);
      case ServerTakesRequest =>
        if s.link.inbox != [] && s.link.emission.None? {
          TakeRequestKeepsInv(s);
          RequestFrame(s);
        }
      case ClientTakesFrame => if s.link.wire != [] { ClientStepKeepsInv(s); }
      case _ => hide Step; LinkStepKeepsInv(s, e);
    }
  }

  lemma RecordedFrame(s: System, agentId: AgentId, update: AgentUpdate)
    requires agentId in s.actors
    ensures Recorded(s, agentId, update).laneCapacity == s.laneCapacity
  {
  }

  lemma RequestFrame(s: System)
    requires s.link.inbox != [] && forall a :: a in s.actors ==> Genuine(s.actors[a].history)
    ensures TakeRequest(s).actors == s.actors && TakeRequest(s).laneCapacity == s.laneCapacity
  {
    hide Genuine, StartFor, StartSends;
  }

  lemma LaunchKeepsInv(s: System, e: Event)
    requires Inv(s) && e.Launch?
    requires forall a :: a in s.actors ==> Genuine(s.actors[a].history)
    ensures Inv(Step(s, e)) && Grew(s.actors, Step(s, e).actors)
  {
    hide IsNext, FeedOk, AllGenuine, EmissionOk, GenuineSnapshot;
    var after := Step(s, e);
    if after != s {
      forall a | a in s.actors ensures ActorGrew(s.actors[a], after.actors[a]) {}
      assert Genuine(History(e.snapshot, []));
      GrowthKeepsLanes(s.actors, after.actors, s.link);
      GrowthKeepsClient(s.actors, after.actors, s.client);
      forall id | id in s.link.feeds ensures FeedOk(after.actors, after.link.feeds[id]) {
        LaunchKeepsFeed(s.actors, after.actors, s.link.feeds[id]);
      }
    }
  }

  lemma LaunchKeepsFeed(before: map<AgentId, Actor>, after: map<AgentId, Actor>, f: Feed)
    requires FeedOk(before, f) && forall a :: a in before ==> a in after && after[a] == before[a]
    ensures FeedOk(after, f)
  {
  }

  lemma WriteKeepsLink(actors: map<AgentId, Actor>, link: Link)
    requires LinkOk(actors, link)
    ensures LinkOk(actors, Write(link))
  {
    hide GenuineFrame, FeedsOk, EmissionOk;
  }

  lemma ReplyKeepsLink(actors: map<AgentId, Actor>, link: Link, urgent: bool, capacity: nat)
    requires LinkOk(actors, link)
    ensures LinkOk(actors, Reply(link, urgent, capacity))
  {
    OtherIsGenuine(actors, OtherFrame);
    hide GenuineFrame, FeedsOk, EmissionOk;
  }

  lemma SendGapKeepsLink(actors: map<AgentId, Actor>, link: Link, id: nat, capacity: nat)
    requires LinkOk(actors, link) && id in link.feeds
    ensures LinkOk(actors, SendGap(link, id, capacity))
  {
    if link.feeds[id].gap.Sending? {
      var snapshot := link.feeds[id].gap.snapshot;
      OtherIsGenuine(actors, ReplayGap(snapshot.agentId, snapshot.revision, snapshot.eventSequence, SlowConsumer));
    }
    hide GenuineFrame, FeedOk, EmissionOk;
  }

  lemma ReadSnapshotKeepsLink(actors: map<AgentId, Actor>, link: Link, id: nat, current: AgentSnapshot)
    requires LinkOk(actors, link) && id in link.feeds && current.agentId == link.feeds[id].agentId
    ensures LinkOk(actors, ReadSnapshot(link, id, current))
  {
    GapKeepsFeed(actors, link.feeds[id], Sending(current));
    hide AllGenuine, FeedOk, EmissionOk;
  }

  lemma GapKeepsFeed(actors: map<AgentId, Actor>, f: Feed, gap: GapPhase)
    requires gap.Sending? ==> gap.snapshot.agentId == f.agentId
    ensures FeedOk(actors, f) ==> FeedOk(actors, f.(gap := gap))
  {
  }

  lemma OtherIsGenuine(actors: map<AgentId, Actor>, frame: ServerFrame)
    requires frame.OtherFrame? || frame.ReplayGap?
    ensures GenuineFrame(actors, frame)
  {
  }

  // ----- runs -----

  function Run(s: System, events: seq<Event>): (after: System)
    requires Inv(s)
    ensures Inv(after) && after.laneCapacity == s.laneCapacity
  {
    if events == [] then s
    else
      var before := Run(s, events[..|events| - 1]);
      InvMeansGenuine(before);
      StepKeepsInv(before, events[|events| - 1]);
      Step(before, events[|events| - 1])
  }

  lemma InvMeansGenuine(s: System)
    requires Inv(s)
    ensures forall a :: a in s.actors ==> Genuine(s.actors[a].history)
  {
    forall a | a in s.actors ensures Genuine(s.actors[a].history) {
      assert ActorOk(a, s.actors[a]);
    }
  }

  /** No agent, no connection, an empty replica. */
  function Fresh(laneCapacity: nat): (s: System)
    ensures IsInitial(s) && Inv(s)
  {
    System(map[], laneCapacity, NO_LINK, Replica(map[], {}))
  }

  // ----- main results -----

  /** At some moment of the run this was the agent's authoritative snapshot. */
  ghost predicate WasAuthoritative(s: System, events: seq<Event>, snapshot: AgentSnapshot)
    requires Inv(s)
  {
    exists j :: 0 <= j <= |events| && AuthoritativeAt(s, events[..j], snapshot)
  }

  predicate AuthoritativeAt(s: System, events: seq<Event>, snapshot: AgentSnapshot)
    requires Inv(s)
  {
    var moment := Run(s, events);
    snapshot.agentId in moment.actors && Current(moment.actors[snapshot.agentId].history) == snapshot
  }

  /** Every entry of an actor's history was current at some earlier moment of the run that produced it. */
  lemma {:induction false} HistoryWasCurrent(s: System, events: seq<Event>, agentId: AgentId, k: nat)
    requires IsInitial(s) && Inv(s)
    requires agentId in Run(s, events).actors && k <= |Run(s, events).actors[agentId].history.log|
    requires Genuine(Run(s, events).actors[agentId].history)
    ensures At(Run(s, events).actors[agentId].history, k).agentId == agentId
    ensures WasAuthoritative(s, events, At(Run(s, events).actors[agentId].history, k))
    decreases |events|
  {
    hide IsNext, Advance, Step, Inv;
    var after := Run(s, events).actors[agentId].history;
    RunHistories(s, events, agentId);
    CountersCount(after, k);
    assert events[..|events|] == events;
    if k == |after.log| {
      assert AuthoritativeAt(s, events[..|events|], At(after, k));
    } else {
      var earlier := events[..|events| - 1];
      LastEventGrows(s, events, agentId);
      var before := Run(s, earlier).actors[agentId].history;
      AtUnchanged(before, after, k);
      HistoryWasCurrent(s, earlier, agentId, k);
      var j :| 0 <= j <= |earlier| && AuthoritativeAt(s, earlier[..j], At(before, k));
      assert earlier[..j] == events[..j];
    }
  }

  lemma RunHistories(s: System, events: seq<Event>, agentId: AgentId)
    requires Inv(s) && agentId in Run(s, events).actors
    ensures ActorOk(agentId, Run(s, events).actors[agentId])
    ensures IsInitial(s) && |Run(s, events).actors[agentId].history.log| > 0 ==> events != []
  {
  }

  /** With something already in its log, an agent existed before the last event and gained at most one update by it. */
  lemma LastEventGrows(s: System, events: seq<Event>, agentId: AgentId)
    requires Inv(s) && events != [] && agentId in Run(s, events).actors
    requires |Run(s, events).actors[agentId].history.log| > 0
    ensures var earlier := Run(s, events[..|events| - 1]).actors;
            && agentId in earlier
            && ActorOk(agentId, earlier[agentId])
            && ActorGrew(earlier[agentId], Run(s, events).actors[agentId])
  {
    hide Step, Inv, ActorOk, Genuine, ActorGrew;
    var before := Run(s, events[..|events| - 1]);
    var last := events[|events| - 1];
    InvMeansGenuine(before);
    StepKeepsInv(before, last);
    if agentId !in before.actors {
      NewAgentsStartEmpty(before, last, agentId);
      assert false;
    }
    RunHistories(s, events[..|events| - 1], agentId);
  }

  lemma NewAgentsStartEmpty(s: System, e: Event, agentId: AgentId)
    requires forall a :: a in s.actors ==> Genuine(s.actors[a].history)
    requires agentId in Step(s, e).actors && agentId !in s.actors
    ensures Step(s, e).actors[agentId].history.log == []
  {
    hide Genuine, DeltaFor, EventFor, Emit, TakeUpdate, Reduce, OutcomeOf, StartFor, StartSends;
  }

  lemma AtUnchanged(before: History, after: History, k: nat)
    requires Genuine(before)
    requires after == before
             || exists update :: IsNext(Current(before), update) && after == Extend(before, update)
    requires k <= |before.log|
    ensures At(after, k) == At(before, k)
  {
    hide IsNext;
    if after != before {
      var update :| IsNext(Current(before), update) && after == Extend(before, update);
      AtIgnoresLater(before, update, k);
    }
  }

  /**
   * Replica safety, end to end. Over every interleaving of launches, changes, events, subscribing,
   * overflowing queues, dropped and overtaking frames, and lost connections, every snapshot the
   * client holds, flagged or not, was the agent's authoritative snapshot at some moment of the run,
   * namely the one with the event sequence it carries.
   */
  lemma ReplicaIsNeverWrong(laneCapacity: nat, events: seq<Event>, agentId: AgentId)
    requires agentId in Run(Fresh(laneCapacity), events).client.agents
    ensures var after := Run(Fresh(laneCapacity), events);
            && agentId in after.actors
            && IsPast(after.actors[agentId].history, after.client.agents[agentId])
            && WasAuthoritative(Fresh(laneCapacity), events, after.client.agents[agentId])
  {
    hide IsNext, Advance, Step, At;
    var s := Fresh(laneCapacity);
    var after := Run(s, events);
    assert GenuineSnapshot(after.actors, after.client.agents[agentId]);
    var h := after.actors[agentId].history;
    RunHistories(s, events, agentId);
    HistoryWasCurrent(s, events, agentId, after.client.agents[agentId].eventSequence - h.base.eventSequence);
  }
}
