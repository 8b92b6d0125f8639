/** What concerns one agent on a connection: its frames, its requests, and its share of the replica. */
module AgentShare {
  import opened Prelude
  import opened ControlState
  import opened ActorHistory
  import opened Reducer
  import opened ReplicationSystem

  // ----- what concerns one agent -----

  predicate Concerns(frame: ServerFrame, agentId: AgentId) {
    match frame
    case SnapshotFrame(_) => Names(frame, agentId)
    case ReplayGap(named, _, _, _) => named == agentId
    case OtherFrame => false
    case _ => UpdateIn(frame).value.Agent() == agentId
  }

  predicate ConcernsOnly(frame: ServerFrame, agentId: AgentId) {
    match frame
    case SnapshotFrame(agents) => |agents| == 1 && agents[0].agentId == agentId
    case ReplayGap(named, _, _, _) => named == agentId
    case OtherFrame => false
    case _ => UpdateIn(frame).value.Agent() == agentId
  }

  lemma OnlyOne(frame: ServerFrame, agentId: AgentId, other: AgentId)
    requires ConcernsOnly(frame, agentId)
    ensures Concerns(frame, other) <==> other == agentId
  {
  }

  function Filter(frames: seq<ServerFrame>, agentId: AgentId): seq<ServerFrame> {
    if frames == [] then []
    else (if Concerns(frames[0], agentId) then [frames[0]] else []) + Filter(frames[1..], agentId)
  }

  lemma FilterStep(frames: seq<ServerFrame>, agentId: AgentId)
    ensures frames == [] ==> Filter(frames, agentId) == []
    ensures frames != [] ==>
              Filter(frames, agentId)
              == (if Concerns(frames[0], agentId) then [frames[0]] else []) + Filter(frames[1..], agentId)
  {
  }

  lemma {:induction false} FilterConcat(x: seq<ServerFrame>, y: seq<ServerFrame>, agentId: AgentId)
    ensures Filter(x + y, agentId) == Filter(x, agentId) + Filter(y, agentId)
  {
    hide Concerns, Filter;
    FilterStep(x, agentId);
    FilterStep(x + y, agentId);
    if x == [] {
      assert x + y == y;
    } else {
      assert (x + y)[1..] == x[1..] + y;
      FilterConcat(x[1..], y, agentId);
    }
  }

  lemma FilterOne(frame: ServerFrame, agentId: AgentId)
    ensures Filter([frame], agentId) == if Concerns(frame, agentId) then [frame] else []
  {
    assert [frame][1..] == [];
  }

  lemma FilterPush(frames: seq<ServerFrame>, frame: ServerFrame, agentId: AgentId)
    ensures Filter(frames + [frame], agentId) ==
            Filter(frames, agentId) + (if Concerns(frame, agentId) then [frame] else [])
  {
    FilterConcat(frames, [frame], agentId);
    FilterOne(frame, agentId);
  }

  lemma {:induction false} FilterAll(frames: seq<ServerFrame>, agentId: AgentId)
    requires forall i :: 0 <= i < |frames| ==> Concerns(frames[i], agentId)
    ensures Filter(frames, agentId) == frames
  {
    hide Concerns;
    if frames != [] {
      FilterAll(frames[1..], agentId);
    }
  }

  lemma {:induction false} FilterNone(frames: seq<ServerFrame>, agentId: AgentId)
    requires forall i :: 0 <= i < |frames| ==> !Concerns(frames[i], agentId)
    ensures Filter(frames, agentId) == []
  {
    hide Concerns;
    if frames != [] {
      FilterNone(frames[1..], agentId);
    }
  }

  function RequestsOf(inbox: seq<Request>, agentId: AgentId): seq<Request> {
    if inbox == [] then []
    else (if inbox[0].agentId == agentId then [inbox[0]] else []) + RequestsOf(inbox[1..], agentId)
  }

  lemma RequestsStep(inbox: seq<Request>, agentId: AgentId)
    ensures inbox == [] ==> RequestsOf(inbox, agentId) == []
    ensures inbox != [] ==>
              RequestsOf(inbox, agentId)
              == (if inbox[0].agentId == agentId then [inbox[0]] else []) + RequestsOf(inbox[1..], agentId)
  {
  }

  lemma {:induction false} RequestsConcat(x: seq<Request>, y: seq<Request>, agentId: AgentId)
    ensures RequestsOf(x + y, agentId) == RequestsOf(x, agentId) + RequestsOf(y, agentId)
  {
    hide RequestsOf;
    RequestsStep(x, agentId);
    RequestsStep(x + y, agentId);
    if x == [] {
      assert x + y == y;
    } else {
      assert (x + y)[1..] == x[1..] + y;
      RequestsConcat(x[1..], y, agentId);
    }
  }

  lemma RequestsPush(inbox: seq<Request>, request: Request, agentId: AgentId)
    ensures RequestsOf(inbox + [request], agentId) ==
            RequestsOf(inbox, agentId) + (if request.agentId == agentId then [request] else [])
  {
    RequestsConcat(inbox, [request], agentId);
    assert [request][1..] == [];
    assert RequestsOf([request], agentId) == (if request.agentId == agentId then [request] else []) + [];
  }

  // ----- one agent's share of the replica -----

  datatype Share = Share(held: Option<AgentSnapshot>, flagged: bool)

  function ShareOf(r: Replica, agentId: AgentId): Share {
    Share(if agentId in r.agents then Some(r.agents[agentId]) else None, agentId in r.resyncRequired)
  }

  /** A frame of another agent leaves the share alone. */
  lemma ReduceElsewhere(r: Replica, frame: ServerFrame, agentId: AgentId)
    requires !Concerns(frame, agentId)
    ensures ShareOf(Reduce(r, frame), agentId) == ShareOf(r, agentId)
  {
    hide Advance;
    if frame.SnapshotFrame? {
      InstallIgnoresOthers(r, frame.agents);
    }
  }

  lemma {:induction false} InstallIsLocal(a: Replica, b: Replica, agents: seq<AgentSnapshot>, agentId: AgentId)
    requires ShareOf(a, agentId) == ShareOf(b, agentId)
    ensures ShareOf(Install(a, agents), agentId) == ShareOf(Install(b, agents), agentId)
  {
    if agents != [] {
      InstallIsLocal(a, b, agents[..|agents| - 1], agentId);
    }
  }

  /** What a frame does to a share depends on that share alone. */
  lemma ReduceIsLocal(a: Replica, b: Replica, frame: ServerFrame, agentId: AgentId)
    requires ShareOf(a, agentId) == ShareOf(b, agentId)
    ensures ShareOf(Reduce(a, frame), agentId) == ShareOf(Reduce(b, frame), agentId)
  {
    if frame.SnapshotFrame? {
      InstallIsLocal(a, b, frame.agents, agentId);
    } else if Concerns(frame, agentId) {
      hide Advance, ApplyDelta;
    } else {
      ReduceElsewhere(a, frame, agentId);
      ReduceElsewhere(b, frame, agentId);
    }
  }

  lemma {:induction false} ReduceAllIsLocal(a: Replica, b: Replica, frames: seq<ServerFrame>, agentId: AgentId)
    requires ShareOf(a, agentId) == ShareOf(b, agentId)
    ensures ShareOf(ReduceAll(a, frames), agentId) == ShareOf(ReduceAll(b, frames), agentId)
    decreases |frames|
  {
    hide Reduce, ShareOf;
    if frames != [] {
      ReduceIsLocal(a, b, frames[0], agentId);
      ReduceAllIsLocal(Reduce(a, frames[0]), Reduce(b, frames[0]), frames[1..], agentId);
    }
  }

  /** A client that takes a frame of another agent. */
  lemma TakesElsewhere(client: Replica, frame: ServerFrame, agentId: AgentId)
    requires !Concerns(frame, agentId)
    ensures ShareOf(Reduce(client, frame), agentId) == ShareOf(client, agentId)
    ensures Cursor(Reduce(client, frame), agentId) == Cursor(client, agentId)
    ensures RequestsOf(Resubscriptions(client, frame), agentId) == []
  {
    ReduceElsewhere(client, frame, agentId);
    CursorOfShare(client, Reduce(client, frame), agentId);
    hide Reduce, Rejection;
    var again := Resubscriptions(client, frame);
    if again != [] {
      assert again[0].agentId != agentId && again[1..] == [];
    }
  }

  lemma CursorOfShare(a: Replica, b: Replica, agentId: AgentId)
    requires ShareOf(a, agentId) == ShareOf(b, agentId)
    ensures Cursor(a, agentId) == Cursor(b, agentId)
  {
  }
}
