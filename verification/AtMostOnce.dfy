/**
 * A mutation end to end: client table, connections that come and go, the daemon's claim, execute,
 * complete sequence, and daemon crashes at any point. One daemon, no pruning.
 */
module AtMostOnce {
  import opened Prelude
  import opened ClientRequests
  import opened OperationStore

  /** Frames of this client's connections, by connection number, and of anyone else. */
  datatype Sender = Ours(connection: nat) | Foreign(n: nat)

  datatype Flight = Flight(sender: Sender, requestId: Id, operationId: Option<OperationId>, request: ControlRequest)

  /** How far the daemon is with a claimed request. */
  datatype Phase = Claimed | Running | Finished(outcome: ResponseOutcome)

  datatype Execution = Execution(request: ControlRequest, outcome: Option<ResponseOutcome>)

  datatype Reply = Reply(flight: Flight, outcome: ResponseOutcome)

  /** `executions` lists every time the controller was asked to execute under an operation key. */
  datatype World = World(
    client: Client, connection: nat, deviceId: DeviceId, prefix: string,
    inFlight: set<Flight>, jobs: map<Flight, Phase>, ops: Operations,
    executions: map<OperationKey, seq<Execution>>, replies: set<Reply>)

  datatype WorldEvent =
    | ClientActs(event: ClientEvent)
    | ClientSends(key: nat, taken: bool, arrives: bool)
    | ClientHears(reply: Reply)
    | OthersSend(flight: Flight)
    | DaemonRefuses(flight: Flight, code: string)
    | DaemonReads(flight: Flight, outcome: ResponseOutcome)
    | DaemonClaims(flight: Flight, nowMs: nat)
    | ControllerStarts(flight: Flight)
    | ControllerFinishes(flight: Flight, outcome: ResponseOutcome)
    | DaemonCompletes(flight: Flight, nowMs: nat, stored: bool)
    | DaemonCrashes

  function KeyOf(w: World, f: Flight): OperationKey
    requires f.operationId.Some?
  {
    OperationKey(w.deviceId, f.operationId.value)
  }

  function OperationText(w: World, k: nat): Option<OperationId> {
    if k in w.client.table.ledger.operations
    then Some(NameText(w.prefix, w.client.table.ledger.operations[k])) else None
  }

  function AnswerOf(outcome: ResponseOutcome): Answer {
    match outcome
    case Success(response) => Answered(response)
    case Failed(code) => Refused(code)
  }

  /** The request identifier a send would draw, and the frame that may reach the daemon even when the send fails. */
  function Departing(w: World, key: nat): Option<Flight> {
    var table := w.client.table;
    if !w.client.online || w.client.stopped || key !in table.pending || table.pending[key].sentRequestId.Some?
       || table.counter == U64_MAX
    then None
    else
      var p := table.pending[key];
      Some(Flight(Ours(w.connection), Id(RequestKind, table.counter),
        if p.operationId.Some? then Some(NameText(w.prefix, p.operationId.value)) else None, p.payload))
  }

  function ClaimReply(claim: Result<OperationClaim, OperationError>): Option<ResponseOutcome> {
    match claim
    case Ok(Execute) => None
    case Ok(Replayed(outcome)) => Some(outcome)
    case Ok(InProgress) => Some(Failed("operation_in_progress"))
    case Ok(Unknown) => Some(Failed("operation_indeterminate"))
    case Err(_) => Some(Failed("operation_conflict"))
  }

  // ----- steps of the daemon -----

  /** Claim the operation under the store's lock; anything but "execute" is answered at once. */
  function TakeClaim(w: World, flight: Flight, nowMs: nat): World {
    if flight !in w.inFlight || flight.operationId.None? || flight in w.jobs then w
    else
      var (ops, claim) := Claim(w.ops, KeyOf(w, flight), flight.request, nowMs);
      var answer := ClaimReply(claim);
      var taken := w.(inFlight := w.inFlight - {flight}, ops := ops);
      if answer.None? then taken.(jobs := w.jobs[flight := Claimed])
      else taken.(replies := w.replies + {Reply(flight, answer.value)})
  }

  function StartRun(w: World, flight: Flight): World {
    if flight in w.jobs && w.jobs[flight] == Claimed && flight.operationId.Some? then
      var key := KeyOf(w, flight);
      w.(jobs := w.jobs[flight := Phase.Running],
         executions := w.executions[key :=
           (if key in w.executions then w.executions[key] else []) + [Execution(flight.request, None)]])
    else w
  }

  function EndRun(w: World, flight: Flight, outcome: ResponseOutcome): World {
    if flight in w.jobs && w.jobs[flight] == Phase.Running && flight.operationId.Some?
       && KeyOf(w, flight) in w.executions && w.executions[KeyOf(w, flight)] != [] then
      var key := KeyOf(w, flight);
      var runs := w.executions[key];
      w.(jobs := w.jobs[flight := Finished(outcome)],
         executions := w.executions[key := runs[|runs| - 1 := runs[|runs| - 1].(outcome := Some(outcome))]])
    else w
  }

  /** Record the outcome, then answer with it; if it could not be recorded, answer with an error instead. */
  function SettleRun(w: World, flight: Flight, nowMs: nat, stored: bool): World {
    if flight in w.jobs && w.jobs[flight].Finished? && flight.operationId.Some? then
      var outcome := w.jobs[flight].outcome;
      var (ops, done) := if stored then Complete(w.ops, KeyOf(w, flight), outcome, nowMs) else (w.ops, Err(StorageFailed));
      w.(jobs := w.jobs - {flight}, ops := ops,
         replies := w.replies
           + {Reply(flight, if done.Ok? then outcome else Failed("operation_outcome_not_persisted"))})
    else w
  }

  function Crash(w: World): World {
    w.(jobs := map[], ops := Recover(w.ops))
  }

  function WorldStep(w: World, e: WorldEvent): World {
    match e
    case ClientActs(event) =>
      if event.SendKey? || event.ResponseArrives? then w
      else w.(client := ClientStep(w.client, event),
              connection := if event.ConnectionUp? then w.connection + 1 else w.connection)
    case ClientSends(key, taken, arrives) =>
      var flight := Departing(w, key);
      w.(client := ClientStep(w.client, SendKey(key, taken)),
         inFlight := if flight.Some? && (taken || arrives) then w.inFlight + {flight.value} else w.inFlight)
    case ClientHears(reply) =>
      if reply in w.replies && reply.flight.sender == Ours(w.connection) then
        w.(client := ClientStep(w.client, ResponseArrives(reply.flight.requestId, AnswerOf(reply.outcome))),
           replies := w.replies - {reply})
      else w
    case OthersSend(flight) =>
      if flight.sender.Foreign? then w.(inFlight := w.inFlight + {flight}) else w
    case DaemonRefuses(flight, code) =>
      if flight in w.inFlight then
        w.(inFlight := w.inFlight - {flight}, replies := w.replies + {Reply(flight, Failed(code))})
      else w
    case DaemonReads(flight, outcome) =>
      if flight in w.inFlight && flight.operationId.None? then
        w.(inFlight := w.inFlight - {flight}, replies := w.replies + {Reply(flight, outcome)})
      else w
    case DaemonClaims(flight, nowMs) => TakeClaim(w, flight, nowMs)
    case ControllerStarts(flight) => StartRun(w, flight)
    case ControllerFinishes(flight, outcome) => EndRun(w, flight, outcome)
    case DaemonCompletes(flight, nowMs, stored) => SettleRun(w, flight, nowMs, stored)
    case DaemonCrashes => Crash(w)
  }

  function Begin(deviceId: DeviceId, prefix: string): World {
    World(NEW_CLIENT, 0, deviceId, prefix, {}, map[], map[], map[], {})
  }

  function WorldRun(w: World, events: seq<WorldEvent>): World {
    if events == [] then w else WorldStep(WorldRun(w, events[..|events| - 1]), events[|events| - 1])
  }

  // ----- the daemon's side -----

  /** A job holds the pending record of its key, and the executions under the key match its phase. */
  predicate JobOk(w: World, f: Flight)
    requires f in w.jobs
  {
    && f.operationId.Some?
    && var key := KeyOf(w, f);
       && key in w.ops && w.ops[key].status.Pending? && w.ops[key].request == f.request
       && match w.jobs[f]
          case Claimed => key !in w.executions
          case Running => key in w.executions && w.executions[key] == [Execution(f.request, None)]
          case Finished(outcome) => key in w.executions && w.executions[key] == [Execution(f.request, Some(outcome))]
  }

  predicate OneJobPerKey(w: World) {
    forall f, g :: f in w.jobs && g in w.jobs && f.operationId == g.operationId ==> f == g
  }

  /** A key has executed at most once, only under a record, and a completed record holds that execution's outcome. */
  predicate ExecutedOnce(w: World, key: OperationKey)
    requires key in w.executions
  {
    && |w.executions[key]| == 1 && key in w.ops
    && w.executions[key][0].request == w.ops[key].request
  }

  predicate CompletedRan(w: World, key: OperationKey)
    requires key in w.ops
  {
    w.ops[key].status.Completed? ==>
      key in w.executions && w.executions[key] == [Execution(w.ops[key].request, Some(w.ops[key].status.outcome))]
  }

  /** A success for a mutation is the recorded outcome of that very request. */
  predicate ReplyOk(w: World, r: Reply) {
    r.outcome.Success? && r.flight.operationId.Some? ==> Recorded(w, r.flight.operationId.value, r.flight.request, r.outcome)
  }

  predicate Recorded(w: World, operationId: OperationId, request: ControlRequest, outcome: ResponseOutcome) {
    var key := OperationKey(w.deviceId, operationId);
    key in w.ops && w.ops[key].request == request && w.ops[key].status == Completed(outcome)
  }

  predicate DaemonInv(w: World) {
    && (forall f :: f in w.jobs ==> JobOk(w, f))
    && OneJobPerKey(w)
    && (forall key :: key in w.executions ==> ExecutedOnce(w, key))
    && (forall key :: key in w.ops ==> CompletedRan(w, key))
    && (forall r :: r in w.replies ==> ReplyOk(w, r))
  }

  // ----- the client's side -----

  /** A frame of ours carries an identifier already drawn, and what it says is what the table says of its submission. */
  predicate OursOk(w: World, f: Flight) {
    f.sender.Ours? ==>
      && f.requestId.kind == RequestKind && f.requestId.counter < w.client.table.counter
      && (f.requestId in w.client.table.ledger.sentAs ==>
            Describes(w, f, w.client.table.ledger.sentAs[f.requestId]))
  }

  predicate Describes(w: World, f: Flight, k: nat) {
    && k in w.client.table.ledger.payloads && f.request == w.client.table.ledger.payloads[k]
    && f.operationId == OperationText(w, k)
  }

  /** A mutation that was answered with a result has that result on record. */
  predicate AnswerOk(w: World, k: nat)
    requires k in w.client.table.ledger.answers
  {
    var answers := w.client.table.ledger.answers[k];
    |answers| == 1 && answers[0].Answered? && OperationText(w, k).Some? ==>
      k in w.client.table.ledger.payloads
      && Recorded(w, OperationText(w, k).value, w.client.table.ledger.payloads[k], Success(answers[0].outcome))
  }

  predicate FramesInv(w: World) {
    && (forall f :: f in w.inFlight ==> OursOk(w, f))
    && (forall f :: f in w.jobs ==> OursOk(w, f))
    && (forall r :: r in w.replies ==> OursOk(w, r.flight))
    && (forall k: nat :: k in w.client.table.ledger.answers ==> AnswerOk(w, k))
  }

  predicate WorldInv(w: World) {
    ClientInv(w.client) && DaemonInv(w) && FramesInv(w)
  }

  // ----- the daemon's steps keep the invariant -----

  /** A completed record never changes again, so everything that refers to it stays true. */
  predicate KeepsCompleted(before: Operations, after: Operations) {
    forall key :: key in before && before[key].status.Completed? ==> key in after && after[key] == before[key]
  }

  lemma RecordedStays(w: World, after: World, operationId: OperationId, request: ControlRequest, outcome: ResponseOutcome)
    requires Recorded(w, operationId, request, outcome) && KeepsCompleted(w.ops, after.ops)
    requires after.deviceId == w.deviceId
    ensures Recorded(after, operationId, request, outcome)
  {
  }

  /** A daemon step leaves the client alone, keeps completed records, and answers only frames it was handed. */
  predicate DaemonFrame(w: World, after: World) {
    && after.client == w.client && after.connection == w.connection
    && after.deviceId == w.deviceId && after.prefix == w.prefix
    && KeepsCompleted(w.ops, after.ops)
    && (forall f :: f in after.inFlight ==> f in w.inFlight)
    && (forall f :: f in after.jobs ==> f in w.jobs || f in w.inFlight)
    && (forall r :: r in after.replies ==> r in w.replies || r.flight in w.inFlight || r.flight in w.jobs)
  }

  lemma DaemonKeepsFrames(w: World, after: World)
    requires FramesInv(w) && DaemonFrame(w, after)
    ensures FramesInv(after) && after.client == w.client
    ensures after.deviceId == w.deviceId && after.prefix == w.prefix
  {
    hide Recorded, KeepsCompleted;
    forall f | OursOk(w, f) ensures OursOk(after, f) {
    }
    forall k: nat | k in after.client.table.ledger.answers ensures AnswerOk(after, k) {
      assert AnswerOk(w, k);
      var answers := w.client.table.ledger.answers[k];
      if |answers| == 1 && answers[0].Answered? && OperationText(w, k).Some? {
        RecordedStays(w, after, OperationText(w, k).value, w.client.table.ledger.payloads[k],
          Success(answers[0].outcome));
      }
    }
  }

  lemma RepliesStay(w: World, after: World, r: Reply)
    requires ReplyOk(w, r) && KeepsCompleted(w.ops, after.ops) && after.deviceId == w.deviceId
    ensures ReplyOk(after, r)
  {
  }

  /** What a claim does to the daemon: it registers a job for an unknown key, or answers with what it found. */
  predicate Registers(w: World, flight: Flight, nowMs: nat, after: World) {
    && flight in w.inFlight && flight.operationId.Some? && flight !in w.jobs && KeyOf(w, flight) !in w.ops
    && after == w.(inFlight := w.inFlight - {flight}, jobs := w.jobs[flight := Claimed],
                   ops := w.ops[KeyOf(w, flight) := OperationRecord(flight.request, Pending, nowMs)])
  }

  predicate Answers(w: World, flight: Flight, outcome: ResponseOutcome, after: World) {
    && flight in w.inFlight && ReplyOk(w, Reply(flight, outcome))
    && after == w.(inFlight := w.inFlight - {flight}, replies := w.replies + {Reply(flight, outcome)})
  }

  lemma ClaimRegistersOrAnswers(w: World, flight: Flight, nowMs: nat)
    requires flight in w.inFlight && flight.operationId.Some? && flight !in w.jobs
    ensures var after := TakeClaim(w, flight, nowMs);
            var answer := ClaimReply(Claim(w.ops, KeyOf(w, flight), flight.request, nowMs).1);
            if answer.None? then Registers(w, flight, nowMs, after) else Answers(w, flight, answer.value, after)
  {
    var key := KeyOf(w, flight);
    ClaimFacts(w.ops, key, flight.request, nowMs);
    hide Claim, ClaimReply;
    var (ops, claim) := Claim(w.ops, key, flight.request, nowMs);
    if ClaimReply(claim).None? {
      assert ops == w.ops[key := OperationRecord(flight.request, Pending, nowMs)];
    } else {
      assert ops == w.ops;
    }
  }

  lemma ClaimKeepsDaemon(w: World, flight: Flight, nowMs: nat)
    requires DaemonInv(w)
    ensures DaemonInv(TakeClaim(w, flight, nowMs)) && DaemonFrame(w, TakeClaim(w, flight, nowMs))
  {
    hide DaemonInv, DaemonFrame, Registers, Answers, Claim, ClaimReply;
    if flight in w.inFlight && flight.operationId.Some? && flight !in w.jobs {
      ClaimRegistersOrAnswers(w, flight, nowMs);
      var after := TakeClaim(w, flight, nowMs);
      var answer := ClaimReply(Claim(w.ops, KeyOf(w, flight), flight.request, nowMs).1);
      hide TakeClaim;
      if answer.None? {
        RegisteringKeepsDaemon(w, flight, nowMs, after);
      } else {
        AnsweringKeepsDaemon(w, flight, answer.value, after);
      }
    } else {
      NothingKeepsDaemon(w);
    }
  }

  lemma NothingKeepsDaemon(w: World)
    ensures DaemonFrame(w, w)
  {
  }

  lemma AnsweringKeepsDaemon(w: World, flight: Flight, outcome: ResponseOutcome, after: World)
    requires DaemonInv(w) && Answers(w, flight, outcome, after)
    ensures DaemonInv(after) && DaemonFrame(w, after)
  {
    hide JobOk, OneJobPerKey, ExecutedOnce, CompletedRan, ReplyOk;
    DaemonIgnoresClient(w, after);
    SameRecords(w.ops);
  }

  lemma RegisteringKeepsDaemon(w: World, flight: Flight, nowMs: nat, after: World)
    requires DaemonInv(w) && Registers(w, flight, nowMs, after)
    ensures DaemonInv(after) && DaemonFrame(w, after)
  {
    RegisteringKeepsJobs(w, flight, nowMs, after);
    RegisteringKeepsRuns(w, flight, nowMs, after);
    hide JobOk, OneJobPerKey, ExecutedOnce, CompletedRan, ReplyOk;
  }

  lemma RegisteringKeepsJobs(w: World, flight: Flight, nowMs: nat, after: World)
    requires DaemonInv(w) && Registers(w, flight, nowMs, after)
    ensures (forall f :: f in after.jobs ==> JobOk(after, f)) && OneJobPerKey(after)
  {
    hide CompletedRan, ReplyOk;
    assert KeyOf(w, flight) in w.executions ==> ExecutedOnce(w, KeyOf(w, flight));
    hide ExecutedOnce;
    forall f | f in after.jobs ensures JobOk(after, f) {
      assert f in w.jobs ==> JobOk(w, f);
    }
    forall f, g | f in after.jobs && g in after.jobs && f.operationId == g.operationId ensures f == g {
      assert f in w.jobs ==> JobOk(w, f);
      assert g in w.jobs ==> JobOk(w, g);
    }
  }

  lemma RegisteringKeepsRuns(w: World, flight: Flight, nowMs: nat, after: World)
    requires DaemonInv(w) && Registers(w, flight, nowMs, after)
    ensures KeepsCompleted(w.ops, after.ops)
    ensures forall key :: key in after.executions ==> ExecutedOnce(after, key)
    ensures forall key :: key in after.ops ==> CompletedRan(after, key)
    ensures forall r :: r in after.replies ==> ReplyOk(after, r)
  {
    hide JobOk, OneJobPerKey;
    forall k | k in after.executions ensures ExecutedOnce(after, k) {
      assert ExecutedOnce(w, k);
    }
    forall k | k in after.ops ensures CompletedRan(after, k) {
      assert k in w.ops ==> CompletedRan(w, k);
    }
    forall r | r in after.replies ensures ReplyOk(after, r) {
      RepliesStay(w, after, r);
    }
  }

  /** A claim hands out execution only for an unknown key, and replays only the outcome on record. */
  lemma ClaimFacts(ops: Operations, key: OperationKey, request: ControlRequest, nowMs: nat)
    ensures var (after, claim) := Claim(ops, key, request, nowMs);
            && KeepsCompleted(ops, after)
            && (forall k :: k in after <==> k in ops || (k == key && claim == Ok(Execute)))
            && (forall k :: k in ops ==> after[k] == ops[k])
            && (claim == Ok(Execute) ==> key !in ops && after[key] == OperationRecord(request, Pending, nowMs))
            && (claim.Ok? && claim.value.Replayed? ==>
                  key in ops && ops[key].request == request && ops[key].status == Completed(claim.value.outcome))
            && (ClaimReply(claim).Some? && ClaimReply(claim).value.Success? ==> claim.Ok? && claim.value.Replayed?)
            && (ClaimReply(claim).None? <==> claim == Ok(Execute))
  {
  }

  lemma StartKeepsDaemon(w: World, flight: Flight)
    requires DaemonInv(w)
    ensures DaemonInv(StartRun(w, flight)) && DaemonFrame(w, StartRun(w, flight))
  {
    var after := StartRun(w, flight);
    SameRecords(w.ops);
    if after != w {
      assert JobOk(w, flight);
      OtherJobsKeep(w, after, flight);
      assert JobOk(after, flight);
      OthersKeep(w, after, KeyOf(w, flight));
      assert [] + [Execution(flight.request, None)] == [Execution(flight.request, None)];
    }
  }

  lemma FinishKeepsDaemon(w: World, flight: Flight, outcome: ResponseOutcome)
    requires DaemonInv(w)
    ensures DaemonInv(EndRun(w, flight, outcome)) && DaemonFrame(w, EndRun(w, flight, outcome))
  {
    var after := EndRun(w, flight, outcome);
    SameRecords(w.ops);
    if after != w {
      assert JobOk(w, flight);
      OtherJobsKeep(w, after, flight);
      assert JobOk(after, flight);
      OthersKeep(w, after, KeyOf(w, flight));
    }
  }

  /** Changing one job's phase and its key's executions leaves every other job alone. */
  lemma OtherJobsKeep(w: World, after: World, flight: Flight)
    requires DaemonInv(w) && flight in w.jobs
    requires flight.operationId.Some? && after.ops == w.ops && after.deviceId == w.deviceId
    requires after.jobs.Keys == w.jobs.Keys
    requires forall f :: f in w.jobs && f != flight ==> after.jobs[f] == w.jobs[f]
    requires forall key :: key != KeyOf(w, flight) ==>
               (key in after.executions <==> key in w.executions)
               && (key in w.executions ==> after.executions[key] == w.executions[key])
    ensures forall f :: f in after.jobs && f != flight ==> JobOk(after, f)
    ensures OneJobPerKey(after)
  {
    forall f | f in after.jobs && f != flight ensures JobOk(after, f) {
      assert f in w.jobs.Keys;
      assert JobOk(w, f);
    }
    forall f, g | f in after.jobs && g in after.jobs && f.operationId == g.operationId ensures f == g {
      assert f in w.jobs.Keys && g in w.jobs.Keys;
    }
  }

  lemma OthersKeep(w: World, after: World, changed: OperationKey)
    requires DaemonInv(w) && after.ops == w.ops && after.replies == w.replies && after.deviceId == w.deviceId
    requires changed in w.ops && w.ops[changed].status.Pending?
    requires forall key :: key != changed ==>
               (key in after.executions <==> key in w.executions)
               && (key in w.executions ==> after.executions[key] == w.executions[key])
    ensures forall key :: key in after.executions && key != changed ==> ExecutedOnce(after, key)
    ensures forall key :: key in after.ops ==> CompletedRan(after, key)
    ensures forall r :: r in after.replies ==> ReplyOk(after, r)
  {
    forall key | key in after.executions && key != changed ensures ExecutedOnce(after, key) {
      assert ExecutedOnce(w, key);
    }
    forall key | key in after.ops ensures CompletedRan(after, key) {
      assert CompletedRan(w, key);
    }
    forall r | r in after.replies ensures ReplyOk(after, r) {
      RepliesStay(w, after, r);
    }
  }

  /** What the end of a run does: the job goes, its record is completed or not, its frame is answered. */
  predicate Settles(w: World, flight: Flight, done: bool, nowMs: nat, after: World) {
    && flight in w.jobs && w.jobs[flight].Finished? && flight.operationId.Some?
    && var outcome := w.jobs[flight].outcome;
       && after == w.(jobs := w.jobs - {flight}, ops := after.ops,
                      replies := w.replies
                        + {Reply(flight, if done then outcome else Failed("operation_outcome_not_persisted"))})
       && (!done ==> after.ops == w.ops)
       && (done ==> KeyOf(w, flight) in w.ops && after.ops.Keys == w.ops.Keys
                    && after.ops[KeyOf(w, flight)].request == w.ops[KeyOf(w, flight)].request
                    && after.ops[KeyOf(w, flight)].status == Completed(outcome)
                    && forall k :: k in w.ops && k != KeyOf(w, flight) ==> after.ops[k] == w.ops[k])
  }

  lemma SettleRunSettles(w: World, flight: Flight, nowMs: nat, stored: bool)
    requires flight in w.jobs && w.jobs[flight].Finished? && flight.operationId.Some?
    ensures exists done :: Settles(w, flight, done, nowMs, SettleRun(w, flight, nowMs, stored))
  {
    var outcome := w.jobs[flight].outcome;
    var done := stored && Complete(w.ops, KeyOf(w, flight), outcome, nowMs).1.Ok?;
    assert Settles(w, flight, done, nowMs, SettleRun(w, flight, nowMs, stored));
  }

  lemma CompleteKeepsDaemon(w: World, flight: Flight, nowMs: nat, stored: bool)
    requires DaemonInv(w)
    ensures DaemonInv(SettleRun(w, flight, nowMs, stored)) && DaemonFrame(w, SettleRun(w, flight, nowMs, stored))
  {
    hide DaemonInv, DaemonFrame, Settles, Complete;
    if flight in w.jobs && w.jobs[flight].Finished? && flight.operationId.Some? {
      SettleRunSettles(w, flight, nowMs, stored);
      hide SettleRun;
      var done :| Settles(w, flight, done, nowMs, SettleRun(w, flight, nowMs, stored));
      SettlingKeepsDaemon(w, flight, done, nowMs, SettleRun(w, flight, nowMs, stored));
    } else {
      NothingKeepsDaemon(w);
    }
  }

  lemma SettlingKeepsDaemon(w: World, flight: Flight, done: bool, nowMs: nat, after: World)
    requires DaemonInv(w) && Settles(w, flight, done, nowMs, after)
    ensures DaemonInv(after) && DaemonFrame(w, after)
  {
    SettlingKeepsJobs(w, flight, done, nowMs, after);
    SettlingKeepsRuns(w, flight, done, nowMs, after);
    hide JobOk, OneJobPerKey, ExecutedOnce, CompletedRan, ReplyOk;
  }

  lemma SettlingKeepsJobs(w: World, flight: Flight, done: bool, nowMs: nat, after: World)
    requires DaemonInv(w) && Settles(w, flight, done, nowMs, after)
    ensures (forall f :: f in after.jobs ==> JobOk(after, f)) && OneJobPerKey(after)
  {
    hide ExecutedOnce, CompletedRan, ReplyOk;
    forall f | f in after.jobs ensures JobOk(after, f) {
      assert JobOk(w, f);
    }
  }

  lemma SettlingKeepsRuns(w: World, flight: Flight, done: bool, nowMs: nat, after: World)
    requires DaemonInv(w) && Settles(w, flight, done, nowMs, after)
    ensures KeepsCompleted(w.ops, after.ops)
    ensures forall key :: key in after.executions ==> ExecutedOnce(after, key)
    ensures forall key :: key in after.ops ==> CompletedRan(after, key)
    ensures forall r :: r in after.replies ==> ReplyOk(after, r)
  {
    hide OneJobPerKey;
    assert JobOk(w, flight);
    forall k | k in after.executions ensures ExecutedOnce(after, k) {
      assert ExecutedOnce(w, k);
    }
    forall k | k in after.ops ensures CompletedRan(after, k) {
      assert CompletedRan(w, k);
    }
    forall r | r in after.replies ensures ReplyOk(after, r) {
      if r in w.replies {
        RepliesStay(w, after, r);
      }
    }
  }

  lemma CrashKeepsDaemon(w: World)
    requires DaemonInv(w)
    ensures DaemonInv(Crash(w)) && DaemonFrame(w, Crash(w))
  {
    var after := Crash(w);
    forall k | k in after.executions ensures ExecutedOnce(after, k) {
      assert ExecutedOnce(w, k);
    }
    forall k | k in after.ops ensures CompletedRan(after, k) {
      assert CompletedRan(w, k);
    }
    forall r | r in after.replies ensures ReplyOk(after, r) {
      RepliesStay(w, after, r);
    }
  }

  // ----- steps of the client -----

  /** The client only adds to its ledger, so frames keep matching the submissions they came from. */
  predicate LedgerGrew(before: Table, after: Table) {
    && before.counter <= after.counter
    && (forall k :: k in before.ledger.payloads ==>
          k in after.ledger.payloads && after.ledger.payloads[k] == before.ledger.payloads[k])
    && (forall k :: k in before.ledger.payloads ==>
          (k in after.ledger.operations <==> k in before.ledger.operations)
          && (k in before.ledger.operations ==> after.ledger.operations[k] == before.ledger.operations[k]))
  }

  /** The identifiers newly registered by the step were drawn in it. */
  predicate NewSendsAreFresh(before: Table, after: Table) {
    forall id :: id in after.ledger.sentAs ==>
      (id in before.ledger.sentAs && after.ledger.sentAs[id] == before.ledger.sentAs[id])
      || id.counter >= before.counter
  }

  lemma FrameStaysDescribed(w: World, after: World, f: Flight)
    requires OursOk(w, f) && LedgerGrew(w.client.table, after.client.table)
    requires NewSendsAreFresh(w.client.table, after.client.table) && after.prefix == w.prefix
    ensures OursOk(after, f)
  {
  }

  predicate PayloadsCover(t: Table) {
    && (forall k: nat :: k < t.ledger.submitted ==> k in t.ledger.payloads)
    && (forall k: nat :: k in t.ledger.payloads ==> k < t.ledger.submitted)
    && (forall k: nat :: k in t.ledger.operations ==> k in t.ledger.payloads)
    && (forall k: nat :: k in t.ledger.answers ==> k in t.ledger.payloads)
  }

  predicate TableGrew(before: Table, after: Table) {
    LedgerGrew(before, after) && NewSendsAreFresh(before, after) && PayloadsCover(after)
  }

  lemma TableGrewThrough(a: Table, b: Table, c: Table)
    requires TableGrew(a, b) && TableGrew(b, c)
    ensures TableGrew(a, c)
  {
  }

  lemma DrawGrows(t: Table, kind: IdKind)
    requires PayloadsCover(t)
    ensures TableGrew(t, Draw(t, kind).0)
  {
  }

  lemma InsertGrows(t: Table, payload: string, operationId: Option<OperationName>)
    requires PayloadsCover(t)
    ensures TableGrew(t, Insert(t, payload, operationId))
  {
  }

  lemma SendGrows(t: Table, key: nat, taken: bool)
    requires PayloadsCover(t)
    ensures TableGrew(t, Send(t, key, taken).0)
  {
  }

  lemma ResolveGrows(t: Table, requestId: Id, answer: Answer)
    requires TableInv(t) && PayloadsCover(t)
    ensures TableGrew(t, Resolve(t, requestId, answer))
  {
    hide FreshIds;
  }

  lemma DisconnectGrows(t: Table)
    requires TableInv(t) && PayloadsCover(t)
    ensures TableGrew(t, MarkDisconnected(t))
  {
    hide FreshIds, Indexed;
  }

  lemma StopGrows(t: Table)
    requires TableInv(t) && PayloadsCover(t)
    ensures TableGrew(t, FailPending(t))
  {
    hide FreshIds, Indexed;
  }

  lemma ClientStepGrows(c: Client, e: ClientEvent)
    requires ClientInv(c) && PayloadsCover(c.table)
    ensures LedgerGrew(c.table, ClientStep(c, e).table)
    ensures NewSendsAreFresh(c.table, ClientStep(c, e).table)
    ensures PayloadsCover(ClientStep(c, e).table)
  {
    hide TableInv, PayloadsCover, LedgerGrew, NewSendsAreFresh, Draw, Insert, Send, Resolve, MarkDisconnected, FailPending;
    DrawGrows(c.table, OperationKind);
    StaysAsItIs(c.table);
    match e {
      case SubmitMutation(payload) =>
        var (drawn, id) := Draw(c.table, OperationKind);
        if id.Some? {
          InsertGrows(drawn, payload, Some(Generated(id.value)));
          TableGrewThrough(c.table, drawn, Insert(drawn, payload, Some(Generated(id.value))));
        }
      case SubmitNamed(payload, text) => InsertGrows(c.table, payload, Some(Supplied(text)));
      case SubmitRead(payload) => InsertGrows(c.table, payload, None);
      case SendKey(key, taken) => SendGrows(c.table, key, taken);
      case ResponseArrives(requestId, answer) => ResolveGrows(c.table, requestId, answer);
      case ConnectionDown => DisconnectGrows(c.table);
      case Stop => StopGrows(c.table);
      case ConnectionUp =>
    }
  }

  lemma StaysAsItIs(t: Table)
    requires PayloadsCover(t)
    ensures TableGrew(t, t)
  {
  }

  lemma AnswerStays(w: World, after: World, k: nat)
    requires k in w.client.table.ledger.answers && AnswerOk(w, k)
    requires PayloadsCover(w.client.table) && LedgerGrew(w.client.table, after.client.table)
    requires k in after.client.table.ledger.answers
    requires after.client.table.ledger.answers[k] == w.client.table.ledger.answers[k]
    requires after.ops == w.ops && after.deviceId == w.deviceId && after.prefix == w.prefix
    ensures AnswerOk(after, k)
  {
  }

  /** A step of the client other than hearing a reply adds no result to the ledger. */
  lemma OnlyRepliesAnswer(c: Client, e: ClientEvent, k: nat)
    requires ClientInv(c) && !e.ResponseArrives?
    requires k in ClientStep(c, e).table.ledger.answers
    ensures (k in c.table.ledger.answers && ClientStep(c, e).table.ledger.answers[k] == c.table.ledger.answers[k])
            || ClientStep(c, e).table.ledger.answers[k] == [ClientStopped]
  {
  }

  lemma ClientActKeepsFrames(w: World, e: ClientEvent, after: World)
    requires WorldInv(w) && PayloadsCover(w.client.table) && !e.ResponseArrives?
    requires after.client == ClientStep(w.client, e)
    requires after == w.(client := after.client, connection := after.connection, inFlight := after.inFlight)
    requires forall f :: f in after.inFlight && f !in w.inFlight ==> OursOk(after, f)
    ensures FramesInv(after)
  {
    hide ClientStep, ClientInv, DaemonInv;
    ClientStepGrows(w.client, e);
    forall f | OursOk(w, f) ensures OursOk(after, f) {
      FrameStaysDescribed(w, after, f);
    }
    forall k: nat | k in after.client.table.ledger.answers ensures AnswerOk(after, k) {
      OnlyRepliesAnswer(w.client, e, k);
      if k in w.client.table.ledger.answers
         && after.client.table.ledger.answers[k] == w.client.table.ledger.answers[k] {
        AnswerStays(w, after, k);
      }
    }
  }

  lemma DepartingIsOurs(w: World, key: nat, taken: bool, after: World)
    requires ClientInv(w.client) && Departing(w, key).Some?
    requires after.client == ClientStep(w.client, SendKey(key, taken)) && after.prefix == w.prefix
    ensures OursOk(after, Departing(w, key).value)
  {
    assert Remembers(w.client.table, key);
    var id := Id(RequestKind, w.client.table.counter);
    assert id !in w.client.table.ledger.sentAs;
  }

  lemma HearKeepsFrames(w: World, reply: Reply)
    requires WorldInv(w) && PayloadsCover(w.client.table) && reply in w.replies
    requires reply.flight.sender == Ours(w.connection)
    ensures FramesInv(WorldStep(w, ClientHears(reply)))
  {
    var e := ResponseArrives(reply.flight.requestId, AnswerOf(reply.outcome));
    var after := WorldStep(w, ClientHears(reply));
    ClientStepGrows(w.client, e);
    forall f | OursOk(w, f) ensures OursOk(after, f) {
      FrameStaysDescribed(w, after, f);
    }
    forall k: nat | k in after.client.table.ledger.answers ensures AnswerOk(after, k) {
      if k in w.client.table.ledger.answers
         && after.client.table.ledger.answers[k] == w.client.table.ledger.answers[k] {
        AnswerStays(w, after, k);
      } else {
        HeardAnswer(w, reply, k);
      }
    }
  }

  /** The submission a reply resolves is the one its frame was sent for, so the recorded outcome is its own. */
  lemma HeardAnswer(w: World, reply: Reply, k: nat)
    requires WorldInv(w) && PayloadsCover(w.client.table) && reply in w.replies
    requires reply.flight.sender == Ours(w.connection)
    requires var after := WorldStep(w, ClientHears(reply));
             k in after.client.table.ledger.answers
             && (k !in w.client.table.ledger.answers
                 || after.client.table.ledger.answers[k] != w.client.table.ledger.answers[k])
    ensures AnswerOk(WorldStep(w, ClientHears(reply)), k)
  {
    var after := WorldStep(w, ClientHears(reply));
    ResolvedSubmission(w, reply, k, after);
    FrameOfReply(w, reply, k);
    hide Recorded, WorldStep, WorldInv, PayloadsCover;
    RecordedTransfers(w, after);
  }

  /** Hearing the reply answered submission k, once, and changed neither what was submitted nor what is on record. */
  lemma ResolvedSubmission(w: World, reply: Reply, k: nat, after: World)
    requires ClientInv(w.client) && reply in w.replies && reply.flight.sender == Ours(w.connection)
    requires after == WorldStep(w, ClientHears(reply)) && k in after.client.table.ledger.answers
    requires k !in w.client.table.ledger.answers
             || after.client.table.ledger.answers[k] != w.client.table.ledger.answers[k]
    ensures reply.flight.requestId in w.client.table.responseIndex
    ensures w.client.table.responseIndex[reply.flight.requestId] == k
    ensures after.client.table.ledger.answers[k] == [AnswerOf(reply.outcome)]
    ensures after == w.(client := after.client, replies := after.replies)
    ensures after.client.table.ledger.payloads == w.client.table.ledger.payloads
    ensures after.client.table.ledger.operations == w.client.table.ledger.operations
  {
    hide FreshIds, DistinctOperations, AnswerOf;
    var table := w.client.table;
    assert table.responseIndex[reply.flight.requestId] == k;
    assert k !in table.ledger.answers;
    assert [] + [AnswerOf(reply.outcome)] == [AnswerOf(reply.outcome)];
  }

  lemma FrameOfReply(w: World, reply: Reply, k: nat)
    requires WorldInv(w) && reply in w.replies && reply.flight.sender == Ours(w.connection)
    requires reply.flight.requestId in w.client.table.responseIndex
    requires w.client.table.responseIndex[reply.flight.requestId] == k
    ensures Describes(w, reply.flight, k) && ReplyOk(w, reply)
  {
    hide FreshIds, DistinctOperations, DaemonInv, Describes, ReplyOk, Conserved;
    RepliesOk(w);
    assert OursOk(w, reply.flight);
    IndexedSent(w.client, reply.flight.requestId);
  }

  lemma RepliesOk(w: World)
    requires DaemonInv(w)
    ensures forall r :: r in w.replies ==> ReplyOk(w, r)
  {
  }

  lemma IndexedSent(c: Client, id: Id)
    requires ClientInv(c) && id in c.table.responseIndex
    ensures id in c.table.ledger.sentAs && c.table.ledger.sentAs[id] == c.table.responseIndex[id]
  {
  }

  lemma RecordedTransfers(w: World, after: World)
    requires after.ops == w.ops && after.deviceId == w.deviceId
    ensures forall operationId, request, outcome ::
              Recorded(w, operationId, request, outcome) ==> Recorded(after, operationId, request, outcome)
  {
  }

  lemma DaemonIgnoresClient(w: World, after: World)
    requires DaemonInv(w)
    requires after == w.(client := after.client, connection := after.connection,
                         inFlight := after.inFlight, replies := after.replies)
    requires forall r :: r in after.replies ==> ReplyOk(w, r)
    ensures DaemonInv(after)
  {
    forall f | f in after.jobs ensures JobOk(after, f) { assert JobOk(w, f); }
    forall k | k in after.executions ensures ExecutedOnce(after, k) { assert ExecutedOnce(w, k); }
    forall k | k in after.ops ensures CompletedRan(after, k) { assert CompletedRan(w, k); }
    forall r | r in after.replies ensures ReplyOk(after, r) { assert ReplyOk(w, r); }
  }

  predicate IsDaemonStep(e: WorldEvent) {
    e.DaemonClaims? || e.ControllerStarts? || e.ControllerFinishes? || e.DaemonCompletes? || e.DaemonCrashes?
  }

  lemma DaemonStepKeepsInv(w: World, e: WorldEvent)
    requires DaemonInv(w) && FramesInv(w) && IsDaemonStep(e)
    ensures DaemonInv(WorldStep(w, e)) && FramesInv(WorldStep(w, e))
    ensures WorldStep(w, e).client == w.client
    ensures WorldStep(w, e).deviceId == w.deviceId && WorldStep(w, e).prefix == w.prefix
  {
    hide DaemonInv, FramesInv, DaemonFrame, TakeClaim, StartRun, EndRun, SettleRun, Crash;
    match e {
      case DaemonClaims(flight, nowMs) => ClaimKeepsDaemon(w, flight, nowMs);
      case ControllerStarts(flight) => StartKeepsDaemon(w, flight);
      case ControllerFinishes(flight, outcome) => FinishKeepsDaemon(w, flight, outcome);
      case DaemonCompletes(flight, nowMs, stored) => CompleteKeepsDaemon(w, flight, nowMs, stored);
      case DaemonCrashes => CrashKeepsDaemon(w);
    }
    DaemonKeepsFrames(w, WorldStep(w, e));
  }

  lemma WorldStepKeepsInv(w: World, e: WorldEvent)
    requires WorldInv(w) && PayloadsCover(w.client.table)
    requires WorldStep(w, e).client.table.ledger.submitted <= KEYS
    ensures WorldInv(WorldStep(w, e)) && PayloadsCover(WorldStep(w, e).client.table)
    ensures WorldStep(w, e).deviceId == w.deviceId && WorldStep(w, e).prefix == w.prefix
  {
    hide ClientInv, PayloadsCover, ClientStep, OursOk, ReplyOk, AnswerOk, DaemonInv, Departing, AnswerOf,
      TakeClaim, StartRun, EndRun, SettleRun, Crash;
    if IsDaemonStep(e) {
      hide FramesInv, WorldStep;
      DaemonStepKeepsInv(w, e);
    } else {
      OutsideStepKeepsInv(w, e);
    }
  }

  lemma OutsideStepKeepsInv(w: World, e: WorldEvent)
    requires WorldInv(w) && PayloadsCover(w.client.table) && !IsDaemonStep(e)
    requires WorldStep(w, e).client.table.ledger.submitted <= KEYS
    ensures WorldInv(WorldStep(w, e)) && PayloadsCover(WorldStep(w, e).client.table)
    ensures WorldStep(w, e).deviceId == w.deviceId && WorldStep(w, e).prefix == w.prefix
  {
    if e.ClientActs? || e.ClientSends? || e.ClientHears? {
      ClientEventKeepsInv(w, e);
    } else {
      TrafficKeepsInv(w, e);
    }
    hide WorldStep, WorldInv, PayloadsCover;
  }

  lemma ClientEventKeepsInv(w: World, e: WorldEvent)
    requires WorldInv(w) && PayloadsCover(w.client.table) && (e.ClientActs? || e.ClientSends? || e.ClientHears?)
    requires WorldStep(w, e).client.table.ledger.submitted <= KEYS
    ensures WorldInv(WorldStep(w, e)) && PayloadsCover(WorldStep(w, e).client.table)
    ensures WorldStep(w, e).deviceId == w.deviceId && WorldStep(w, e).prefix == w.prefix
  {
    hide ClientInv, PayloadsCover, ClientStep, OursOk, ReplyOk, AnswerOk, JobOk, ExecutedOnce, CompletedRan,
      OneJobPerKey, Departing, AnswerOf;
    var after := WorldStep(w, e);
    match e
    case ClientActs(event) =>
      if !event.SendKey? && !event.ResponseArrives? {
        ClientStepKeepsInv(w.client, event);
        ClientStepGrows(w.client, event);
        ClientActKeepsFrames(w, event, after);
        DaemonIgnoresClient(w, after);
      }
    case ClientSends(key, taken, arrives) =>
      ClientStepKeepsInv(w.client, SendKey(key, taken));
      ClientStepGrows(w.client, SendKey(key, taken));
      if Departing(w, key).Some? {
        DepartingIsOurs(w, key, taken, after);
      }
      ClientActKeepsFrames(w, SendKey(key, taken), after);
      DaemonIgnoresClient(w, after);
    case ClientHears(reply) =>
      if after != w {
        ClientStepKeepsInv(w.client, ResponseArrives(reply.flight.requestId, AnswerOf(reply.outcome)));
        ClientStepGrows(w.client, ResponseArrives(reply.flight.requestId, AnswerOf(reply.outcome)));
        HearKeepsFrames(w, reply);
        DaemonIgnoresClient(w, after);
      }
  }

  lemma TrafficKeepsInv(w: World, e: WorldEvent)
    requires WorldInv(w) && PayloadsCover(w.client.table) && (e.OthersSend? || e.DaemonRefuses? || e.DaemonReads?)
    ensures WorldInv(WorldStep(w, e)) && WorldStep(w, e).client == w.client
    ensures WorldStep(w, e).deviceId == w.deviceId && WorldStep(w, e).prefix == w.prefix
  {
    hide ClientInv, PayloadsCover, OursOk, ReplyOk, AnswerOk, JobOk, ExecutedOnce, CompletedRan,
      OneJobPerKey, KeepsCompleted;
    var after := WorldStep(w, e);
    SameRecords(w.ops);
    match e
    case OthersSend(flight) =>
      DaemonIgnoresClient(w, after);
      OthersKeepFrames(w, flight);
    case DaemonRefuses(flight, code) =>
      FailureReplyOk(w, flight, code);
      DaemonIgnoresClient(w, after);
      DaemonKeepsFrames(w, after);
    case DaemonReads(flight, outcome) =>
      ReadReplyOk(w, flight, outcome);
      DaemonIgnoresClient(w, after);
      DaemonKeepsFrames(w, after);
  }

  lemma SameRecords(ops: Operations)
    ensures KeepsCompleted(ops, ops)
  {
  }

  lemma FailureReplyOk(w: World, flight: Flight, code: string)
    ensures ReplyOk(w, Reply(flight, Failed(code)))
  {
  }

  lemma ReadReplyOk(w: World, flight: Flight, outcome: ResponseOutcome)
    ensures flight.operationId.None? ==> ReplyOk(w, Reply(flight, outcome))
  {
  }

  lemma OthersKeepFrames(w: World, flight: Flight)
    requires FramesInv(w)
    ensures FramesInv(WorldStep(w, OthersSend(flight)))
  {
    var after := WorldStep(w, OthersSend(flight));
    forall f | OursOk(w, f) ensures OursOk(after, f) {}
    forall k: nat | k in after.client.table.ledger.answers ensures AnswerOk(after, k) {
      assert AnswerOk(w, k);
    }
  }

  lemma {:induction false} WorldInvAlways(w: World, events: seq<WorldEvent>)
    requires w == Begin(w.deviceId, w.prefix)
    requires WorldRun(w, events).client.table.ledger.submitted <= KEYS
    ensures WorldInv(WorldRun(w, events)) && PayloadsCover(WorldRun(w, events).client.table)
    ensures WorldRun(w, events).deviceId == w.deviceId && WorldRun(w, events).prefix == w.prefix
  {
    if events == [] {
      assert 0 % KEYS == 0;
    } else {
      hide WorldStep, WorldInv, PayloadsCover;
      var before := WorldRun(w, events[..|events| - 1]);
      SubmissionsGrow(before, events[|events| - 1]);
      WorldInvAlways(w, events[..|events| - 1]);
      WorldStepKeepsInv(before, events[|events| - 1]);
    }
  }

  lemma SubmissionsGrow(w: World, e: WorldEvent)
    ensures w.client.table.ledger.submitted <= WorldStep(w, e).client.table.ledger.submitted
  {
    hide ClientStep;
    if e.ClientActs? {
      SubmittedGrows(w.client, e.event);
    } else if e.ClientSends? {
      SubmittedGrows(w.client, SendKey(e.key, e.taken));
    } else if e.ClientHears? {
      SubmittedGrows(w.client, ResponseArrives(e.reply.flight.requestId, AnswerOf(e.reply.outcome)));
    }
  }

  /** The result a caller received for its k-th submission, if it received one. */
  function ResultOf(w: World, k: nat): Option<string> {
    var answers := w.client.table.ledger.answers;
    if k in answers && |answers[k]| == 1 && answers[k][0].Answered? then Some(answers[k][0].outcome) else None
  }

  /** The operation key of a submission, if it was a mutation. */
  function SubmissionKey(w: World, k: nat): Option<OperationKey> {
    if OperationText(w, k).Some? then Some(OperationKey(w.deviceId, OperationText(w, k).value)) else None
  }

  /** The client drew the submission's operation identifier itself. */
  predicate DrewOperation(w: World, k: nat) {
    k in w.client.table.ledger.operations && w.client.table.ledger.operations[k].Generated?
  }

  /** The submission's key was executed exactly once, with its own payload and this result. */
  predicate RanOnceWith(w: World, k: nat, result: string) {
    && SubmissionKey(w, k).Some? && k in w.client.table.ledger.payloads
    && SubmissionKey(w, k).value in w.executions
    && w.executions[SubmissionKey(w, k).value]
       == [Execution(w.client.table.ledger.payloads[k], Some(Success(result)))]
  }

  /**
   * At most once, end to end. Over any run of submissions, sends, lost and failing connections,
   * retries on new connections, other clients' traffic and daemon crashes: the controller executes
   * an operation at most once; a mutation answered with a result was executed exactly once, with the
   * payload that was submitted, and the answer is that execution's recorded outcome, whether the
   * operation identifier was drawn or supplied by the caller; and submissions whose identifiers were
   * drawn never share an operation.
   */
  lemma MutationsExecuteAtMostOnce(deviceId: DeviceId, prefix: string, events: seq<WorldEvent>)
    requires WorldRun(Begin(deviceId, prefix), events).client.table.ledger.submitted <= KEYS
    ensures var w := WorldRun(Begin(deviceId, prefix), events);
            && (forall key :: key in w.executions ==> |w.executions[key]| == 1)
            && (forall k: nat :: ResultOf(w, k).Some? && SubmissionKey(w, k).Some? ==>
                  RanOnceWith(w, k, ResultOf(w, k).value))
            && (forall j: nat, k: nat :: j != k && DrewOperation(w, j) && DrewOperation(w, k) ==>
                  SubmissionKey(w, j) != SubmissionKey(w, k))
  {
    var w := WorldRun(Begin(deviceId, prefix), events);
    WorldInvAlways(Begin(deviceId, prefix), events);
    forall key | key in w.executions ensures |w.executions[key]| == 1 {
      assert ExecutedOnce(w, key);
    }
    forall k: nat | ResultOf(w, k).Some? && SubmissionKey(w, k).Some?
      ensures RanOnceWith(w, k, ResultOf(w, k).value)
    {
      assert AnswerOk(w, k);
      assert CompletedRan(w, SubmissionKey(w, k).value);
    }
    forall j: nat, k: nat | j != k && DrewOperation(w, j) && DrewOperation(w, k)
      ensures SubmissionKey(w, j) != SubmissionKey(w, k)
    {
      if SubmissionKey(w, j) == SubmissionKey(w, k) {
        var operations := w.client.table.ledger.operations;
        TextIsInjective(prefix, operations[j].id, operations[k].id);
      }
    }
  }
}
