/** One subscription round brings any client back to the authoritative snapshot. */
module Reconvergence {
  import opened Prelude
  import opened ControlState
  import opened ActorHistory
  import opened Reducer
  import opened ReplicationSystem

  function Times(e: Event, n: nat): seq<Event> {
    seq(n, _ => e)
  }

  /** Subscribe with the cursor the client has, emit the whole start, write every lane out, deliver every frame. */
  function Round(agentId: AgentId, n: nat): seq<Event> {
    [ClientSubscribes(agentId, true), ServerTakesRequest]
    + Times(ServerEmits, n) + Times(WriterSends, n) + Times(ClientTakesFrame, n)
  }

  lemma {:induction false} RunAppend(s: System, first: seq<Event>, second: seq<Event>)
    requires Inv(s)
    ensures Run(s, first + second) == Run(Run(s, first), second)
    decreases |second|
  {
    hide Step, Inv;
    if second == [] {
      assert first + second == first;
    } else {
      var k := |second| - 1;
      assert (first + second)[..|first + second| - 1] == first + second[..k];
      RunAppend(s, first, second[..k]);
    }
  }

  lemma RunOne(s: System, e: Event)
    requires Inv(s) && forall a :: a in s.actors ==> Genuine(s.actors[a].history)
    ensures Run(s, [e]) == Step(s, e)
  {
    hide Step, Inv;
    assert [e][..0] == [];
  }

  lemma RunFront(s: System, e: Event, n: nat)
    requires Inv(s) && forall a :: a in s.actors ==> Genuine(s.actors[a].history)
    requires n > 0
    ensures Inv(Step(s, e)) && Run(s, Times(e, n)) == Run(Step(s, e), Times(e, n - 1))
  {
    hide Step, Inv;
    StepKeepsInv(s, e);
    assert Times(e, n) == [e] + Times(e, n - 1);
    RunAppend(s, [e], Times(e, n - 1));
    RunOne(s, e);
  }

  function OnLane(sends: seq<LaneSend>, lane: Lane): seq<ServerFrame> {
    if sends == [] then []
    else (if sends[0].lane == lane then [sends[0].frame] else []) + OnLane(sends[1..], lane)
  }

  lemma EmitStep(s: System)
    requires Inv(s) && s.link.emission.Some? && forall a :: a in s.actors ==> Genuine(s.actors[a].history)
    ensures Step(s, ServerEmits) == s.(link := Emit(s.link, s.laneCapacity))
  {
    hide Inv, Genuine, Emit;
  }

  /** The first remaining frame moves onto its lane. */
  function Emitted(link: Link, id: nat, sends: seq<LaneSend>): Link
    requires sends != []
  {
    var moved := link.(emission := Some(Emission(id, sends[1..])));
    if sends[0].lane == ControlLane then moved.(control := link.control + [sends[0].frame])
    else moved.(state := link.state + [sends[0].frame])
  }

  lemma EmitMoves(s: System, id: nat, sends: seq<LaneSend>)
    requires Inv(s) && s.link.emission == Some(Emission(id, sends)) && sends != []
    requires forall a :: a in s.actors ==> Genuine(s.actors[a].history)
    requires |s.link.control| < s.laneCapacity && |s.link.state| < s.laneCapacity
    ensures Step(s, ServerEmits) == s.(link := Emitted(s.link, id, sends))
  {
    hide Inv, Step;
    EmitStep(s);
  }

  lemma WriteStep(s: System)
    requires Inv(s) && forall a :: a in s.actors ==> Genuine(s.actors[a].history)
    ensures Step(s, WriterSends) == s.(link := Write(s.link))
  {
    hide Inv, Genuine, Write;
  }

  /** The start emitted completely, each frame on its own lane, in order. */
  function AllEmitted(link: Link, id: nat, sends: seq<LaneSend>): Link {
    link.(emission := Some(Emission(id, [])),
          control := link.control + OnLane(sends, ControlLane),
          state := link.state + OnLane(sends, StateLane))
  }

  lemma NoneToEmit(link: Link, id: nat)
    requires link.emission == Some(Emission(id, []))
    ensures AllEmitted(link, id, []) == link
  {
    assert link.control + [] == link.control && link.state + [] == link.state;
  }

  lemma OnLaneFirst(lane: seq<ServerFrame>, sends: seq<LaneSend>, which: Lane)
    requires sends != []
    ensures (if sends[0].lane == which then lane + [sends[0].frame] else lane) + OnLane(sends[1..], which)
            == lane + OnLane(sends, which)
  {
    var rest := OnLane(sends[1..], which);
    assert (lane + [sends[0].frame]) + rest == lane + ([sends[0].frame] + rest);
    assert [] + rest == rest;
  }

  lemma EmittedFirst(link: Link, id: nat, sends: seq<LaneSend>)
    requires sends != []
    ensures AllEmitted(Emitted(link, id, sends), id, sends[1..]) == AllEmitted(link, id, sends)
  {
    hide OnLane;
    OnLaneFirst(link.control, sends, ControlLane);
    OnLaneFirst(link.state, sends, StateLane);
  }

  /** With room on both lanes the whole start is emitted, each frame on its own lane, in order. */
  lemma {:induction false} EmitsAll(s: System, id: nat, sends: seq<LaneSend>)
    requires Inv(s) && s.link.emission == Some(Emission(id, sends))
    requires |s.link.control| + |sends| <= s.laneCapacity && |s.link.state| + |sends| <= s.laneCapacity
    ensures Run(s, Times(ServerEmits, |sends|)) == s.(link := AllEmitted(s.link, id, sends))
    decreases |sends|
  {
    hide Inv, Step, Emit, AllEmitted, Run;
    InvMeansGenuine(s);
    if sends != [] {
      RunFront(s, ServerEmits, |sends|);
      EmitMoves(s, id, sends);
      EmitsAll(Step(s, ServerEmits), id, sends[1..]);
      EmittedFirst(s.link, id, sends);
    } else {
      NoneToEmit(s.link, id);
      RunNone(s);
      assert Times(ServerEmits, 0) == [];
    }
  }

  lemma RunNone(s: System)
    requires Inv(s)
    ensures Run(s, []) == s
  {
  }

  /** One write moves one frame without disturbing the priority order of what is still to come. */
  predicate Moves(link: Link, next: Link) {
    && next.wire + next.control + next.response + next.state == link.wire + link.control + link.response + link.state
    && next == link.(wire := next.wire, control := next.control, response := next.response, state := next.state)
    && |next.control| + |next.response| + |next.state| == |link.control| + |link.response| + |link.state| - 1
  }

  lemma ControlMoves(link: Link)
    requires link.control != []
    ensures Moves(link, link.(wire := link.wire + [link.control[0]], control := link.control[1..]))
  {
    FrontMoves(link.wire, link.control);
  }

  lemma ResponseMoves(link: Link)
    requires link.control == [] && link.response != []
    ensures Moves(link, link.(wire := link.wire + [link.response[0]], response := link.response[1..]))
  {
    FrontMoves(link.wire, link.response);
    assert link.wire + [] == link.wire;
    assert link.wire + [link.response[0]] + [] == link.wire + [link.response[0]];
  }

  lemma StateMoves(link: Link)
    requires link.control == [] && link.response == [] && link.state != []
    ensures Moves(link, link.(wire := link.wire + [link.state[0]], state := link.state[1..]))
  {
    FrontMoves(link.wire, link.state);
    assert link.wire + [] + [] == link.wire;
    assert link.wire + [link.state[0]] + [] + [] == link.wire + [link.state[0]];
  }

  lemma FrontMoves<T>(wire: seq<T>, lane: seq<T>)
    requires lane != []
    ensures (wire + [lane[0]]) + lane[1..] == wire + lane
  {
  }

  lemma WriteMoves(link: Link)
    requires |link.control| + |link.response| + |link.state| > 0
    ensures Moves(link, Write(link))
  {
    hide Moves;
    if link.control != [] {
      ControlMoves(link);
    } else if link.response != [] {
      ResponseMoves(link);
    } else {
      StateMoves(link);
    }
  }

  /** The writer empties the lanes in priority order. */
  lemma {:induction false} WritesAll(s: System, n: nat)
    requires Inv(s) && n == |s.link.control| + |s.link.response| + |s.link.state|
    ensures Run(s, Times(WriterSends, n)) ==
            s.(link := s.link.(
                 wire := s.link.wire + s.link.control + s.link.response + s.link.state,
                 control := [], response := [], state := []))
    decreases n
  {
    hide Inv, Step, Write, Run;
    InvMeansGenuine(s);
    if n > 0 {
      RunFront(s, WriterSends, n);
      WriteStep(s);
      WriteMoves(s.link);
      WritesAll(Step(s, WriterSends), n - 1);
    } else {
      RunNone(s);
      assert Times(WriterSends, 0) == [];
      assert s.link.wire + [] + [] + [] == s.link.wire;
    }
  }

  /** The client reduces the frames on the wire in order. */
  lemma {:induction false} TakesAll(s: System)
    requires Inv(s)
    ensures var after := Run(s, Times(ClientTakesFrame, |s.link.wire|));
            after.client == ReduceAll(s.client, s.link.wire) && after.actors == s.actors
    decreases |s.link.wire|
  {
    hide Inv, Reduce, OutcomeOf;
    InvMeansGenuine(s);
    if s.link.wire != [] {
      RunFront(s, ClientTakesFrame, |s.link.wire|);
      TakesAll(Step(s, ClientTakesFrame));
    }
  }

  lemma {:induction false} FramesOfLanes(updates: seq<AgentUpdate>)
    ensures OnLane(FramesOf(updates), ControlLane) == []
    ensures OnLane(FramesOf(updates), StateLane) == seq(|updates|, i requires 0 <= i < |updates| => FrameOf(updates[i]))
    decreases |updates|
  {
    if updates != [] {
      assert FramesOf(updates)[1..] == FramesOf(updates[1..]);
      FramesOfLanes(updates[1..]);
    }
  }

  /** Replaying the log from where an unflagged client stands ends at the current snapshot. */
  lemma {:induction false} ReplayCatchesUp(h: History, k: nat, r: Replica)
    requires Genuine(h) && k <= |h.log|
    requires h.base.agentId in r.agents && h.base.agentId !in r.resyncRequired
    requires r.agents[h.base.agentId] == At(h, k)
    ensures var updates := h.log[k..];
            var after := ReduceAll(r, seq(|updates|, i requires 0 <= i < |updates| => FrameOf(updates[i])));
            && h.base.agentId in after.agents && after.agents[h.base.agentId] == Current(h)
            && h.base.agentId !in after.resyncRequired
    decreases |h.log| - k
  {
    var updates := h.log[k..];
    if k < |h.log| {
      var frames := seq(|updates|, i requires 0 <= i < |updates| => FrameOf(updates[i]));
      var next := h.log[k + 1..];
      assert frames[1..] == seq(|next|, i requires 0 <= i < |next| => FrameOf(next[i]));
      NextFrameAccepted(h, k, r);
      hide Reduce, IsNext, Advance;
      ReplayCatchesUp(h, k + 1, Reduce(r, frames[0]));
    } else {
      assert updates == [];
    }
  }

  lemma NextFrameAccepted(h: History, k: nat, r: Replica)
    requires Genuine(h) && k < |h.log|
    requires h.base.agentId in r.agents && h.base.agentId !in r.resyncRequired
    requires r.agents[h.base.agentId] == At(h, k)
    ensures Reduce(r, FrameOf(h.log[k])) == r.(agents := r.agents[h.base.agentId := At(h, k + 1)])
  {
    hide IsNext, Advance, ApplyChange;
    CountersCount(h, k);
    CountersCount(h, k + 1);
    assert NextAt(h, k);
    LogIsRecorded(h, k);
    NextIsAccepted(At(h, k), h.log[k]);
    FrameCarriesUpdate(h.log[k]);
  }

  lemma {:induction false} SnapshotInstalls(r: Replica, s: AgentSnapshot)
    ensures ReduceAll(r, [SnapshotFrame([s])]) == Replica(r.agents[s.agentId := s], r.resyncRequired - {s.agentId})
  {
    var frame := SnapshotFrame([s]);
    assert [frame][1..] == [];
    assert [s][..0] == [];
    assert Install(r, [s]) == Replica(r.agents[s.agentId := s], r.resyncRequired - {s.agentId});
    assert ReduceAll(r, [frame]) == ReduceAll(Reduce(r, frame), []);
  }

  /** What a client holds of one agent is exactly this snapshot, unflagged. */
  predicate Restored(r: Replica, agentId: AgentId, s: AgentSnapshot) {
    agentId in r.agents && r.agents[agentId] == s && agentId !in r.resyncRequired
  }

  lemma SnapshotRestores(client: Replica, s: AgentSnapshot)
    ensures var sends := StartSends(Snapshot(s));
            && Restored(ReduceAll(client, OnLane(sends, ControlLane) + OnLane(sends, StateLane)), s.agentId, s)
            && |OnLane(sends, ControlLane)| + |OnLane(sends, StateLane)| == |sends|
  {
    hide Install, Reduce;
    var sends := StartSends(Snapshot(s));
    OnLaneStep(sends);
    assert sends[1..] == [];
    OnLaneStep([]);
    assert OnLane(sends, ControlLane) + OnLane(sends, StateLane) == [SnapshotFrame([s])];
    SnapshotInstalls(client, s);
  }

  lemma ResyncRestores(client: Replica, s: AgentSnapshot)
    ensures var sends := StartSends(ResyncRequired(s));
            && Restored(ReduceAll(client, OnLane(sends, ControlLane) + OnLane(sends, StateLane)), s.agentId, s)
            && |OnLane(sends, ControlLane)| + |OnLane(sends, StateLane)| == |sends|
  {
    hide Install, OnLane, Reduce, ReduceAll;
    var sends := StartSends(ResyncRequired(s));
    var gap := sends[0].frame;
    OnLaneStep(sends);
    assert sends[1..] == [sends[1]];
    OnLaneStep([sends[1]]);
    assert [sends[1]][1..] == [];
    OnLaneStep([]);
    assert OnLane(sends, ControlLane) + OnLane(sends, StateLane) == [gap, SnapshotFrame([s])];
    assert [gap, SnapshotFrame([s])][1..] == [SnapshotFrame([s])];
    ReduceAllStep(client, [gap, SnapshotFrame([s])]);
    SnapshotInstalls(Reduce(client, gap), s);
  }

  lemma OnLaneStep(sends: seq<LaneSend>)
    ensures forall lane: Lane ::
              OnLane(sends, lane) ==
              if sends == [] then []
              else (if sends[0].lane == lane then [sends[0].frame] else []) + OnLane(sends[1..], lane)
  {
  }

  lemma ReduceAllStep(r: Replica, frames: seq<ServerFrame>)
    requires frames != []
    ensures ReduceAll(r, frames) == ReduceAll(Reduce(r, frames[0]), frames[1..])
  {
  }

  lemma ReplayRestores(h: History, from: nat, client: Replica)
    requires Genuine(h) && from <= |h.log|
    requires h.base.agentId in client.agents && h.base.agentId !in client.resyncRequired
    requires client.agents[h.base.agentId] == At(h, from)
    ensures var sends := StartSends(Replay(h.log[from..]));
            && Restored(ReduceAll(client, OnLane(sends, ControlLane) + OnLane(sends, StateLane)), h.base.agentId, Current(h))
            && |OnLane(sends, ControlLane)| + |OnLane(sends, StateLane)| == |sends|
  {
    hide At, Genuine, ReduceAll, OnLane;
    var updates := h.log[from..];
    FramesOfLanes(updates);
    var frames := seq(|updates|, i requires 0 <= i < |updates| => FrameOf(updates[i]));
    assert [] + frames == frames;
    ReplayCatchesUp(h, from, client);
  }

  /** The start answering the client's own cursor, delivered in the writer's order, is enough by itself. */
  lemma StartRestores(actors: map<AgentId, Actor>, client: Replica, agentId: AgentId)
    requires ActorsOk(actors) && ClientOk(actors, client) && agentId in actors
    requires ActorOk(agentId, actors[agentId])
    ensures var h := actors[agentId].history;
            var sends := StartSends(StartFor(h, actors[agentId].replayCapacity, Cursor(client, agentId)));
            var after := ReduceAll(client, OnLane(sends, ControlLane) + OnLane(sends, StateLane));
            agentId in after.agents && after.agents[agentId] == Current(h) && agentId !in after.resyncRequired
            && |OnLane(sends, ControlLane)| + |OnLane(sends, StateLane)| == |sends|
  {
    hide IsNext, Advance, At, Genuine, IsPast, Replayable, StartSends, OnLane, ReduceAll, ActorsOk, ClientOk;
    var h := actors[agentId].history;
    var start := StartFor(h, actors[agentId].replayCapacity, Cursor(client, agentId));
    CurrentIsPast(h);
    match start {
      case Snapshot(snapshot) => SnapshotRestores(client, snapshot);
      case ResyncRequired(snapshot) => ResyncRestores(client, snapshot);
      case Replay(updates) =>
        ReplayIsFromHere(actors, client, agentId);
        ReplayRestores(h, client.agents[agentId].eventSequence - h.base.eventSequence, client);
    }
  }

  lemma ReplayIsFromHere(actors: map<AgentId, Actor>, client: Replica, agentId: AgentId)
    requires ActorsOk(actors) && ClientOk(actors, client) && agentId in actors
    requires ActorOk(agentId, actors[agentId])
    requires Cursor(client, agentId).Some?
    ensures var h := actors[agentId].history;
            var k := client.agents[agentId].eventSequence - h.base.eventSequence;
            && 0 <= k <= |h.log| && client.agents[agentId] == At(h, k)
            && (StartFor(h, actors[agentId].replayCapacity, Cursor(client, agentId)).Replay? ==>
                  StartFor(h, actors[agentId].replayCapacity, Cursor(client, agentId)) == Replay(h.log[k..]))
  {
    assert GenuineSnapshot(actors, client.agents[agentId]);
  }

  /**
   * From every reachable state with an idle link and lanes large enough for the start, one round
   * leaves the client unflagged and holding exactly the actor's snapshot, whether it was missing,
   * flagged, stale or current before.
   */
  lemma OneRoundReconverges(laneCapacity: nat, events: seq<Event>, agentId: AgentId)
    requires agentId in Run(Fresh(laneCapacity), events).actors
    requires Idle(Run(Fresh(laneCapacity), events).link)
    requires |Answer(Run(Fresh(laneCapacity), events), agentId)| <= laneCapacity
    ensures var s := Run(Fresh(laneCapacity), events);
            var after := Run(s, Round(agentId, |Answer(s, agentId)|));
            && after.actors == s.actors
            && agentId in after.client.agents
            && after.client.agents[agentId] == Current(s.actors[agentId].history)
            && agentId !in after.client.resyncRequired
  {
    var s := Run(Fresh(laneCapacity), events);
    RoundFrom(s, agentId);
  }

  predicate Idle(link: Link) {
    link.inbox == [] && link.emission.None?
    && link.control == [] && link.response == [] && link.state == [] && link.wire == []
  }

  /** The frames the server will emit for this client's cursor. */
  function Answer(s: System, agentId: AgentId): seq<LaneSend>
    requires Inv(s) && agentId in s.actors
  {
    InvMeansGenuine(s);
    StartSends(StartFor(s.actors[agentId].history, s.actors[agentId].replayCapacity, Cursor(s.client, agentId)))
  }

  lemma RoundFrom(s: System, agentId: AgentId)
    requires Inv(s) && agentId in s.actors
    requires Idle(s.link) && |Answer(s, agentId)| <= s.laneCapacity
    ensures var after := Run(s, Round(agentId, |Answer(s, agentId)|));
            && after.actors == s.actors
            && agentId in after.client.agents
            && after.client.agents[agentId] == Current(s.actors[agentId].history)
            && agentId !in after.client.resyncRequired
  {
    hide Inv, Current, Reduce, Step, StartSends, StartFor, Run, OnLane, ReduceAll;
    var sends := Answer(s, agentId);
    var n := |sends|;
    var asked := Asked(s, agentId);
    EmitsAll(asked, s.link.nextFeed, sends);
    var emitted := Run(asked, Times(ServerEmits, n));
    InvParts(s, agentId);
    StartRestores(s.actors, s.client, agentId);
    WritesAll(emitted, n);
    var written := Run(emitted, Times(WriterSends, n));
    assert written.link.wire == OnLane(sends, ControlLane) + OnLane(sends, StateLane);
    TakesAll(written);
    RoundParts(s, agentId, n);
  }

  lemma RoundParts(s: System, agentId: AgentId, n: nat)
    requires Inv(s)
    ensures var asked := Run(s, [ClientSubscribes(agentId, true), ServerTakesRequest]);
            var emitted := Run(asked, Times(ServerEmits, n));
            var written := Run(emitted, Times(WriterSends, n));
            Run(s, Round(agentId, n)) == Run(written, Times(ClientTakesFrame, n))
  {
    hide Inv, Step, Run;
    var prefix := [ClientSubscribes(agentId, true), ServerTakesRequest];
    RunAppend(s, prefix, Times(ServerEmits, n));
    RunAppend(s, prefix + Times(ServerEmits, n), Times(WriterSends, n));
    RunAppend(s, prefix + Times(ServerEmits, n) + Times(WriterSends, n), Times(ClientTakesFrame, n));
  }

  lemma InvParts(s: System, agentId: AgentId)
    requires Inv(s) && agentId in s.actors
    ensures ClientOk(s.actors, s.client) && ActorsOk(s.actors) && ActorOk(agentId, s.actors[agentId])
  {
  }

  /** The state right after the server took the subscription: the whole start is waiting to be emitted. */
  lemma Asked(s: System, agentId: AgentId) returns (asked: System)
    requires Inv(s) && agentId in s.actors && Idle(s.link)
    ensures Inv(asked) && asked == Run(s, [ClientSubscribes(agentId, true), ServerTakesRequest])
    ensures asked.actors == s.actors && asked.client == s.client && asked.laneCapacity == s.laneCapacity
    ensures asked.link.emission == Some(Emission(s.link.nextFeed, Answer(s, agentId)))
    ensures asked.link.control == [] && asked.link.response == [] && asked.link.state == [] && asked.link.wire == []
  {
    hide Inv, StartFor, StartSends, Cursor, Genuine;
    InvMeansGenuine(s);
    var first := Step(s, ClientSubscribes(agentId, true));
    StepKeepsInv(s, ClientSubscribes(agentId, true));
    asked := Step(first, ServerTakesRequest);
    StepKeepsInv(first, ServerTakesRequest);
    RunOne(s, ClientSubscribes(agentId, true));
    RunOne(first, ServerTakesRequest);
    var both := [ClientSubscribes(agentId, true)] + [ServerTakesRequest];
    assert both == [ClientSubscribes(agentId, true), ServerTakesRequest];
    RunAppend(s, [ClientSubscribes(agentId, true)], [ServerTakesRequest]);
  }
}
