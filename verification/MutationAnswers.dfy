/** That mutations are answered at all: the runs in which nothing is lost, and the retry of a lost answer. */
module MutationAnswers {
  import opened Prelude
  import opened ClientRequests
  import opened OperationStore
  import opened AtMostOnce

  lemma {:induction false} RunThrough(w: World, first: seq<WorldEvent>, rest: seq<WorldEvent>)
    ensures WorldRun(w, first + rest) == WorldRun(WorldRun(w, first), rest)
    decreases |rest|
  {
    hide WorldStep;
    if rest == [] {
      assert first + rest == first;
    } else {
      assert (first + rest)[..|first + rest| - 1] == first + rest[..|rest| - 1];
      RunThrough(w, first, rest[..|rest| - 1]);
    }
  }

  lemma RunOne(w: World, e: WorldEvent)
    ensures WorldRun(w, [e]) == WorldStep(w, e)
  {
    assert [e][..0] == [];
    assert WorldRun(w, [e][..0]) == w;
  }

  // ----- the parts of an exchange -----

  /** A pending request that the client can send now. */
  predicate CanSend(w: World, k: nat) {
    && w.client.online && !w.client.stopped && w.client.table.counter < U64_MAX
    && k in w.client.table.pending && w.client.table.pending[k].sentRequestId.None?
    && k !in w.client.table.ledger.answers
  }

  /** The frame it goes out as. */
  function FrameFor(w: World, k: nat): Flight
    requires k in w.client.table.pending
  {
    var p := w.client.table.pending[k];
    Flight(Ours(w.connection), Id(RequestKind, w.client.table.counter),
           if p.operationId.Some? then Some(NameText(w.prefix, p.operationId.value)) else None, p.payload)
  }

  /** The client waits for the answer to this frame, which was sent for k. */
  predicate Awaits(w: World, f: Flight, k: nat) {
    && w.client.online && !w.client.stopped && f.sender == Ours(w.connection)
    && f.requestId in w.client.table.responseIndex && w.client.table.responseIndex[f.requestId] == k
    && k in w.client.table.pending && k !in w.client.table.ledger.answers
  }

  lemma SendingAwaits(w: World, k: nat)
    requires CanSend(w, k)
    ensures var after := WorldStep(w, ClientSends(k, true, true));
            && Awaits(after, FrameFor(w, k), k)
            && after == w.(client := after.client, inFlight := w.inFlight + {FrameFor(w, k)})
            && after.client.table.ledger.payloads == w.client.table.ledger.payloads
            && after.client.table.ledger.operations == w.client.table.ledger.operations
            && after.client.table.ledger.answers == w.client.table.ledger.answers
  {
  }

  lemma HearingAnswers(w: World, f: Flight, k: nat, outcome: ResponseOutcome)
    requires Awaits(w, f, k) && Reply(f, outcome) in w.replies
    ensures var after := WorldStep(w, ClientHears(Reply(f, outcome)));
            && after.client.table.ledger.answers == w.client.table.ledger.answers[k := [AnswerOf(outcome)]]
            && after.client.table.ledger.payloads == w.client.table.ledger.payloads
            && after.client.table.ledger.operations == w.client.table.ledger.operations
            && k !in after.client.table.pending
            && after == w.(client := after.client, replies := w.replies - {Reply(f, outcome)})
  {
    assert [] + [AnswerOf(outcome)] == [AnswerOf(outcome)];
  }

  /** What the daemon and its controller do with a mutation they have not seen. */
  function Executing(w: World, f: Flight, outcome: ResponseOutcome, claimedMs: nat, completedMs: nat): World {
    WorldStep(WorldStep(WorldStep(WorldStep(w,
      DaemonClaims(f, claimedMs)), ControllerStarts(f)), ControllerFinishes(f, outcome)),
      DaemonCompletes(f, completedMs, true))
  }

  /** A mutation the daemon has not seen is executed, recorded, and answered with what the controller returned. */
  lemma UnseenMutationExecutes(w: World, f: Flight, outcome: ResponseOutcome, claimedMs: nat, completedMs: nat)
    requires f in w.inFlight && f !in w.jobs && f.operationId.Some?
    requires KeyOf(w, f) !in w.ops && KeyOf(w, f) !in w.executions
    requires claimedMs <= SQL_MAX && completedMs <= SQL_MAX
    ensures var after := Executing(w, f, outcome, claimedMs, completedMs);
            && after.client == w.client && after.connection == w.connection
            && after.deviceId == w.deviceId && after.prefix == w.prefix
            && Reply(f, outcome) in after.replies
            && after.executions == w.executions[KeyOf(w, f) := [Execution(f.request, Some(outcome))]]
            && after.ops == w.ops[KeyOf(w, f) := OperationRecord(f.request, Completed(outcome), claimedMs)]
  {
    var key := KeyOf(w, f);
    ClaimsIt(w, f, claimedMs);
    var claimed := WorldStep(w, DaemonClaims(f, claimedMs));
    RunsIt(claimed, f, outcome);
    hide WorldStep;
    RecordsIt(WorldStep(WorldStep(claimed, ControllerStarts(f)), ControllerFinishes(f, outcome)), f, outcome, completedMs);
    var started := w.ops[key := OperationRecord(f.request, Pending, claimedMs)];
    assert started[key := OperationRecord(f.request, Completed(outcome), claimedMs)]
        == w.ops[key := OperationRecord(f.request, Completed(outcome), claimedMs)];
  }

  lemma ClaimsIt(w: World, f: Flight, nowMs: nat)
    requires f in w.inFlight && f !in w.jobs && f.operationId.Some? && KeyOf(w, f) !in w.ops && nowMs <= SQL_MAX
    ensures WorldStep(w, DaemonClaims(f, nowMs))
            == w.(inFlight := w.inFlight - {f}, jobs := w.jobs[f := Claimed],
                  ops := w.ops[KeyOf(w, f) := OperationRecord(f.request, Pending, nowMs)])
  {
  }

  lemma RunsIt(w: World, f: Flight, outcome: ResponseOutcome)
    requires f in w.jobs && w.jobs[f] == Claimed && f.operationId.Some? && KeyOf(w, f) !in w.executions
    ensures WorldStep(WorldStep(w, ControllerStarts(f)), ControllerFinishes(f, outcome))
            == w.(jobs := w.jobs[f := Finished(outcome)],
                  executions := w.executions[KeyOf(w, f) := [Execution(f.request, Some(outcome))]])
  {
    var key := KeyOf(w, f);
    assert [] + [Execution(f.request, None)] == [Execution(f.request, None)];
    var started := WorldStep(w, ControllerStarts(f));
    assert started == w.(jobs := w.jobs[f := Phase.Running],
                         executions := w.executions[key := [Execution(f.request, None)]]);
    assert started.executions[key][0 := Execution(f.request, Some(outcome))] == [Execution(f.request, Some(outcome))];
    assert w.jobs[f := Phase.Running][f := Finished(outcome)] == w.jobs[f := Finished(outcome)];
    assert w.executions[key := [Execution(f.request, None)]][key := [Execution(f.request, Some(outcome))]]
        == w.executions[key := [Execution(f.request, Some(outcome))]];
  }

  lemma RecordsIt(w: World, f: Flight, outcome: ResponseOutcome, nowMs: nat)
    requires f in w.jobs && w.jobs[f] == Finished(outcome) && f.operationId.Some? && nowMs <= SQL_MAX
    requires KeyOf(w, f) in w.ops && w.ops[KeyOf(w, f)].status.Pending?
    ensures WorldStep(w, DaemonCompletes(f, nowMs, true))
            == w.(jobs := w.jobs - {f}, replies := w.replies + {Reply(f, outcome)},
                  ops := w.ops[KeyOf(w, f) := w.ops[KeyOf(w, f)].(status := Completed(outcome))])
  {
  }

  /** What a later claim of a recorded mutation is answered with. */
  function AnswerOnRecord(record: OperationRecord, request: ControlRequest): ResponseOutcome {
    if record.request != request then Failed("operation_conflict")
    else
      match record.status
      case Completed(outcome) => outcome
      case Pending => Failed("operation_in_progress")
      case Indeterminate => Failed("operation_indeterminate")
  }

  lemma SeenMutationIsAnswered(w: World, f: Flight, nowMs: nat)
    requires f in w.inFlight && f !in w.jobs && f.operationId.Some?
    requires KeyOf(w, f) in w.ops && nowMs <= SQL_MAX
    ensures var after := WorldStep(w, DaemonClaims(f, nowMs));
            after == w.(inFlight := w.inFlight - {f},
                        replies := w.replies + {Reply(f, AnswerOnRecord(w.ops[KeyOf(w, f)], f.request))})
  {
  }

  /** A frame the client has yet to send is no job of the daemon. */
  lemma UnsentIsNoJob(w: World, k: nat)
    requires WorldInv(w) && CanSend(w, k)
    ensures FrameFor(w, k) !in w.jobs
  {
    assert FrameFor(w, k) in w.jobs ==> OursOk(w, FrameFor(w, k));
  }

  // ----- whole exchanges -----

  /** The events of a mutation that nothing disturbs. */
  function Undisturbed(w: World, payload: string, outcome: ResponseOutcome, claimedMs: nat, completedMs: nat)
    : seq<WorldEvent>
  {
    var k := w.client.table.ledger.submitted;
    var f := NewFrame(w, payload);
    [ClientActs(SubmitMutation(payload)), ClientSends(k, true, true), DaemonClaims(f, claimedMs), ControllerStarts(f),
     ControllerFinishes(f, outcome), DaemonCompletes(f, completedMs, true), ClientHears(Reply(f, outcome))]
  }

  function NewFrame(w: World, payload: string): Flight {
    Flight(Ours(w.connection), Id(RequestKind, w.client.table.counter + 1),
           Some(Text(w.prefix, Id(OperationKind, w.client.table.counter))), payload)
  }

  predicate RoomToSubmit(w: World) {
    && w.client.online && !w.client.stopped
    && w.client.table.counter + 2 <= U64_MAX && w.client.table.ledger.submitted < KEYS
  }

  lemma SubmittingCanSend(w: World, payload: string)
    requires ClientInv(w.client) && RoomToSubmit(w)
    ensures var after := WorldStep(w, ClientActs(SubmitMutation(payload)));
            var k := w.client.table.ledger.submitted;
            && CanSend(after, k) && FrameFor(after, k) == NewFrame(w, payload)
            && after == w.(client := after.client)
            && k in after.client.table.ledger.payloads && after.client.table.ledger.payloads[k] == payload
            && k in after.client.table.ledger.operations
            && after.client.table.ledger.operations[k] == Generated(Id(OperationKind, w.client.table.counter))
            && after.client.table.ledger.answers == w.client.table.ledger.answers
  {
    hide FreshIds, Indexed;
    KeyIsNumber(w.client.table.ledger.submitted);
  }

  lemma SevenSteps(w: World, a: WorldEvent, b: WorldEvent, c: WorldEvent, d: WorldEvent, e: WorldEvent, f: WorldEvent, g: WorldEvent)
    ensures WorldRun(w, [a, b, c, d, e, f, g])
            == WorldStep(WorldStep(WorldStep(WorldStep(WorldStep(WorldStep(WorldStep(w, a), b), c), d), e), f), g)
  {
    hide WorldStep;
    assert [a, b, c, d, e, f, g] == [a] + ([b] + ([c] + ([d] + ([e] + ([f] + [g])))));
    var w1 := WorldStep(w, a);
    var w2 := WorldStep(w1, b);
    var w3 := WorldStep(w2, c);
    var w4 := WorldStep(w3, d);
    var w5 := WorldStep(w4, e);
    var w6 := WorldStep(w5, f);
    RunOne(w, a);
    RunThrough(w, [a], [b] + ([c] + ([d] + ([e] + ([f] + [g])))));
    RunOne(w1, b);
    RunThrough(w1, [b], [c] + ([d] + ([e] + ([f] + [g]))));
    RunOne(w2, c);
    RunThrough(w2, [c], [d] + ([e] + ([f] + [g])));
    RunOne(w3, d);
    RunThrough(w3, [d], [e] + ([f] + [g]));
    RunOne(w4, e);
    RunThrough(w4, [e], [f] + [g]);
    RunOne(w5, f);
    RunThrough(w5, [f], [g]);
    RunOne(w6, g);
  }

  /**
   * From every reachable world in which the client is connected and the operation it would draw is
   * unknown to the daemon: a mutation that nothing disturbs is executed exactly once, with its own
   * payload, and its caller receives exactly what that execution returned.
   */
  lemma UndisturbedMutationIsAnswered(
    w: World, payload: string, outcome: ResponseOutcome, claimedMs: nat, completedMs: nat)
    requires WorldInv(w) && RoomToSubmit(w) && claimedMs <= SQL_MAX && completedMs <= SQL_MAX
    requires OperationKey(w.deviceId, Text(w.prefix, Id(OperationKind, w.client.table.counter))) !in w.ops
    ensures var after := WorldRun(w, Undisturbed(w, payload, outcome, claimedMs, completedMs));
            var k := w.client.table.ledger.submitted;
            var key := OperationKey(w.deviceId, Text(w.prefix, Id(OperationKind, w.client.table.counter)));
            && after.client.table.ledger.answers == w.client.table.ledger.answers[k := [AnswerOf(outcome)]]
            && SubmissionKey(after, k) == Some(key)
            && after.executions == w.executions[key := [Execution(payload, Some(outcome))]]
            && after.ops == w.ops[key := OperationRecord(payload, Completed(outcome), claimedMs)]
  {
    var k := w.client.table.ledger.submitted;
    var f := NewFrame(w, payload);
    var key := KeyOf(w, f);
    assert key in w.executions ==> ExecutedOnce(w, key);
    hide WorldStep, ClientInv, DaemonInv, SubmissionKey, Awaits, AnswerOf;
    SubmittingCanSend(w, payload);
    var submitted := WorldStep(w, ClientActs(SubmitMutation(payload)));
    SubmittedIsNoJob(w, payload);
    SendingAwaits(submitted, k);
    hide CanSend, FrameFor;
    var sent := WorldStep(submitted, ClientSends(k, true, true));
    UnseenMutationExecutes(sent, f, outcome, claimedMs, completedMs);
    var executed := Executing(sent, f, outcome, claimedMs, completedMs);
    AwaitsTransfers(sent, executed, f, k);
    HearingAnswers(executed, f, k, outcome);
    SevenSteps(w, ClientActs(SubmitMutation(payload)), ClientSends(k, true, true), DaemonClaims(f, claimedMs),
      ControllerStarts(f), ControllerFinishes(f, outcome), DaemonCompletes(f, completedMs, true),
      ClientHears(Reply(f, outcome)));
    SubmissionKeyIs(WorldStep(executed, ClientHears(Reply(f, outcome))), k, w.client.table.counter);
  }

  lemma SubmittedIsNoJob(w: World, payload: string)
    requires FramesInv(w)
    ensures NewFrame(w, payload) !in w.jobs
  {
    assert NewFrame(w, payload) in w.jobs ==> OursOk(w, NewFrame(w, payload));
  }

  lemma AwaitsTransfers(w: World, after: World, f: Flight, k: nat)
    requires Awaits(w, f, k) && after.client == w.client && after.connection == w.connection
    ensures Awaits(after, f, k)
  {
  }

  lemma SubmissionKeyIs(w: World, k: nat, counter: nat)
    requires k in w.client.table.ledger.operations
    requires w.client.table.ledger.operations[k] == Generated(Id(OperationKind, counter))
    ensures SubmissionKey(w, k) == Some(OperationKey(w.deviceId, Text(w.prefix, Id(OperationKind, counter))))
  {
  }

  /**
   * A retry, on whatever connection: a mutation whose key is on record is answered with what is on
   * record, in particular with the outcome of the execution whose answer was lost, and nothing is
   * executed again.
   */
  lemma RetryIsAnswered(w: World, k: nat, nowMs: nat)
    requires WorldInv(w) && CanSend(w, k) && SubmissionKey(w, k).Some? && SubmissionKey(w, k).value in w.ops
    requires k in w.client.table.ledger.payloads && nowMs <= SQL_MAX
    ensures var answer := AnswerOnRecord(w.ops[SubmissionKey(w, k).value], w.client.table.ledger.payloads[k]);
            var f := FrameFor(w, k);
            var after := WorldStep(WorldStep(WorldStep(w, ClientSends(k, true, true)), DaemonClaims(f, nowMs)),
                                   ClientHears(Reply(f, answer)));
            && after.client.table.ledger.answers == w.client.table.ledger.answers[k := [AnswerOf(answer)]]
            && after.executions == w.executions && after.ops == w.ops
  {
    var f := FrameFor(w, k);
    assert Remembers(w.client.table, k);
    assert KeyOf(w, f) == SubmissionKey(w, k).value;
    var answer := AnswerOnRecord(w.ops[KeyOf(w, f)], f.request);
    hide WorldInv, WorldStep, AnswerOnRecord, AnswerOf, Awaits, SubmissionKey;
    UnsentIsNoJob(w, k);
    SendingAwaits(w, k);
    hide CanSend, FrameFor;
    var sent := WorldStep(w, ClientSends(k, true, true));
    SeenMutationIsAnswered(sent, f, nowMs);
    var claimed := WorldStep(sent, DaemonClaims(f, nowMs));
    AwaitsTransfers(sent, claimed, f, k);
    HearingAnswers(claimed, f, k, answer);
  }

  /** The records a crash leaves: nothing pending, and whatever had settled as it was. */
  lemma CrashSettlesRecords(w: World, key: OperationKey)
    ensures var after := WorldStep(w, DaemonCrashes);
            && after.client == w.client && after.executions == w.executions && after.jobs == map[]
            && after.replies == w.replies && after.inFlight == w.inFlight
            && (key in after.ops <==> key in w.ops)
            && (key in w.ops ==>
                  after.ops[key] == OperationRecord(w.ops[key].request,
                    if w.ops[key].status.Pending? then Indeterminate else w.ops[key].status, w.ops[key].createdAtMs))
  {
  }

  /**
   * A mutation interrupted by a crash: its retry is told that nobody knows whether it ran, or what it
   * returned if that was recorded before the crash; it is never executed again.
   */
  lemma RetryAfterCrash(w: World, k: nat, nowMs: nat)
    requires WorldInv(w) && CanSend(w, k) && SubmissionKey(w, k).Some? && SubmissionKey(w, k).value in w.ops
    requires k in w.client.table.ledger.payloads && nowMs <= SQL_MAX
    requires w.ops[SubmissionKey(w, k).value].request == w.client.table.ledger.payloads[k]
    ensures var crashed := WorldStep(w, DaemonCrashes);
            var record := w.ops[SubmissionKey(w, k).value];
            var answer := if record.status.Completed? then record.status.outcome else Failed("operation_indeterminate");
            var f := FrameFor(w, k);
            var after := WorldStep(WorldStep(WorldStep(crashed, ClientSends(k, true, true)), DaemonClaims(f, nowMs)),
                                   ClientHears(Reply(f, answer)));
            && after.client.table.ledger.answers == w.client.table.ledger.answers[k := [AnswerOf(answer)]]
            && after.executions == w.executions
  {
    hide WorldInv, CanSend, FrameFor, AnswerOf;
    var crashed := WorldStep(w, DaemonCrashes);
    CrashSettlesRecords(w, SubmissionKey(w, k).value);
    CrashKeepsWorld(w, k);
    hide WorldStep;
    RetryIsAnswered(crashed, k, nowMs);
  }

  lemma CrashKeepsWorld(w: World, k: nat)
    requires WorldInv(w) && CanSend(w, k)
    ensures WorldInv(WorldStep(w, DaemonCrashes)) && CanSend(WorldStep(w, DaemonCrashes), k)
    ensures FrameFor(WorldStep(w, DaemonCrashes), k) == FrameFor(w, k)
    ensures SubmissionKey(WorldStep(w, DaemonCrashes), k) == SubmissionKey(w, k)
  {
    hide ClientInv, DaemonInv, FramesInv;
    DaemonStepKeepsInv(w, DaemonCrashes);
  }

  /** From the very beginning: one connection, one mutation, one answer. */
  lemma FirstMutationIsAnswered(deviceId: DeviceId, prefix: string, payload: string, result: string)
    ensures var start := WorldRun(Begin(deviceId, prefix), [ClientActs(ConnectionUp)]);
            var events := [ClientActs(ConnectionUp)] + Undisturbed(start, payload, Success(result), 1, 2);
            var w := WorldRun(Begin(deviceId, prefix), events);
            && ResultOf(w, 0) == Some(result)
            && SubmissionKey(w, 0).Some?
            && w.executions == map[SubmissionKey(w, 0).value := [Execution(payload, Some(Success(result)))]]
  {
    var begin := Begin(deviceId, prefix);
    RunOne(begin, ClientActs(ConnectionUp));
    var start := WorldRun(begin, [ClientActs(ConnectionUp)]);
    assert start == begin.(client := NEW_CLIENT.(online := true), connection := 1);
    WorldInvAlways(begin, [ClientActs(ConnectionUp)]);
    RunThrough(begin, [ClientActs(ConnectionUp)], Undisturbed(start, payload, Success(result), 1, 2));
    hide WorldInv, WorldStep, WorldRun;
    UndisturbedMutationIsAnswered(start, payload, Success(result), 1, 2);
  }
}
