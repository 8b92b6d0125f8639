/** The actor that owns a child process: writes requests to its stdin and matches its stdout frames to callers. */
module RuntimeActor {
  import opened Prelude

  /** A prompt's acknowledgement may say whether the agent was invoked for it. */
  datatype ResponseBody = ErrorBody(error: string) | PromptBody(agentInvoked: Option<bool>) | OtherBody(text: string)

  datatype Response = Response(id: Option<string>, body: ResponseBody)

  datatype ServerMessage =
    | ResponseMessage(response: Response)
    | PromptResult(id: Option<string>, agentInvoked: bool)
    | AgentStart
    | AgentEnd
    | OtherMessage(body: string)

  datatype RequestError = FrameTooLarge(bytes: nat, limit: nat) | Transport(message: string) | RuntimeStopped

  /** What goes down a caller's one-shot channel. */
  datatype Reply = Answered(response: Response) | Failed(error: RequestError)

  /** What a caller that only writes a message hears. */
  datatype SendReply = Written | NotWritten(error: RequestError)

  /** What the caller of a shutdown hears. */
  datatype StopReply = Stopped(forced: bool) | NotStopped(reason: string)

  datatype RuntimeEvent = FrameEvent(message: ServerMessage) | FailedEvent(reason: string) | ExitedEvent(forced: bool)

  datatype PromptCompletion = Local | Agent

  datatype PromptFailure = TooLarge(bytes: nat, limit: nat) | Reported(error: string)

  datatype PromptPhase =
    | Submitted
    | InProgress
    | Completed(completion: PromptCompletion)
    | PromptFailed(failure: PromptFailure)
  {
    predicate Finished() {
      Completed? || PromptFailed?
    }
  }

  /** What the runtime shows of the latest prompt. */
  datatype PromptStatus = PromptStatus(requestId: string, phase: PromptPhase)

  datatype Phase = Running | ShuttingDown | Draining(forced: bool) | Ended

  /** Where a stdout frame went. */
  datatype Route = ToCaller(caller: nat) | ToEvents

  datatype Handled = Handled(message: ServerMessage, route: Route)

  /** Which calls reached the actor, which of them were cancelled, and where each stdout frame went. */
  datatype Ledger = Ledger(asked: set<nat>, cancelled: set<nat>, handled: seq<Handled>)

  datatype State = State(
    pending: map<string, nat>, answers: map<nat, seq<Reply>>, sends: map<nat, seq<SendReply>>,
    events: seq<RuntimeEvent>, readerOpen: bool, phase: Phase, prompt: Option<PromptStatus>,
    stopper: Option<nat>, stops: map<nat, seq<StopReply>>, killed: bool, ledger: Ledger)

  const NEW_RUNTIME := State(map[], map[], map[], [], true, Running, None, None, map[], false, Ledger({}, {}, []))

  /**
   * What a turn of the actor's loops can receive. `broken` is the transport error of a write,
   * `lost` the error of waiting for or killing the child. `ShutdownInput` without a caller is what the
   * loop sees when every handle was dropped.
   */
  datatype Input =
    | RequestInput(caller: nat, isPrompt: bool, bytes: nat, broken: Option<string>)
    | CancelInput(caller: nat)
    | SendInput(sender: nat, bytes: nat, broken: Option<string>)
    | ShutdownInput(stopper: Option<nat>)
    | FrameInput(message: ServerMessage)
    | ReaderFails(reason: string)
    | ReaderEnds
    | ChildExits(lost: Option<string>)
    | ShutdownTimesOut(lost: Option<string>)

  /** The identifier of the n-th call on a runtime: a 64-bit counter that starts at one and wraps. */
  function IdOf(caller: nat): string {
    "omp-runtime-" + Digits((caller + 1) % (U64_MAX + 1))
  }

  lemma IdsAreDistinct(a: nat, b: nat)
    requires a <= U64_MAX && b <= U64_MAX && IdOf(a) == IdOf(b)
    ensures a == b
  {
    var head := |"omp-runtime-"|;
    assert IdOf(a)[head..] == Digits((a + 1) % (U64_MAX + 1));
    assert IdOf(b)[head..] == Digits((b + 1) % (U64_MAX + 1));
    DigitsAreInjective((a + 1) % (U64_MAX + 1), (b + 1) % (U64_MAX + 1));
  }

  // ----- what each turn does -----

  function Answer(s: State, caller: nat, reply: Reply): State {
    s.(answers := Appended(s.answers, caller, reply))
  }

  /** The caller of a shutdown hears how the runtime ended. */
  function Stop(s: State, event: RuntimeEvent): map<nat, seq<StopReply>> {
    if s.stopper.None? || event.FrameEvent? then s.stops
    else Appended(s.stops, s.stopper.value, if event.ExitedEvent? then Stopped(event.forced) else NotStopped(event.reason))
  }

  /** Every way out of the loops publishes one last event, answers a shutdown and fails whatever is still pending. */
  function Finish(s: State, event: RuntimeEvent): State {
    s.(events := s.events + [event], phase := Ended, stops := Stop(s, event), stopper := None, pending := map[],
       answers := AppendedAll(s.answers, s.pending.Values, Failed(RuntimeStopped)))
  }

  /** A broken transport kills the child first. */
  function Break(s: State, reason: string): State {
    Finish(s.(killed := true), FailedEvent(reason))
  }

  /** A prompt shows as submitted before it is written. */
  function Shown(s: State, caller: nat, isPrompt: bool): State {
    if isPrompt then s.(prompt := Some(PromptStatus(IdOf(caller), Submitted))) else s
  }

  function FailPrompt(prompt: Option<PromptStatus>, id: string, failure: PromptFailure): Option<PromptStatus> {
    if prompt.Some? && prompt.value.requestId == id then Some(prompt.value.(phase := PromptFailed(failure))) else prompt
  }

  function Request(s: State, caller: nat, isPrompt: bool, bytes: nat, broken: Option<string>, limit: nat): State {
    var shown := Shown(s, caller, isPrompt);
    var asked := shown.(ledger := s.ledger.(asked := s.ledger.asked + {caller}));
    if bytes > limit then
      Answer(asked, caller, Failed(FrameTooLarge(bytes, limit))).(
        prompt := FailPrompt(shown.prompt, IdOf(caller), TooLarge(bytes, limit)))
    else if broken.Some? then Break(Answer(asked, caller, Failed(Transport(broken.value))), broken.value)
    else asked.(pending := s.pending[IdOf(caller) := caller])
  }

  /** A plain send is answered at once; a broken pipe also stops the actor. */
  function Send(s: State, sender: nat, bytes: nat, broken: Option<string>, limit: nat): State {
    if bytes > limit then Told(s, sender, NotWritten(FrameTooLarge(bytes, limit)))
    else if broken.Some? then
      Break(Told(s, sender, NotWritten(Transport(broken.value))), broken.value)
    else Told(s, sender, Written)
  }

  function Told(s: State, sender: nat, reply: SendReply): State {
    s.(sends := Appended(s.sends, sender, reply))
  }

  function Cancel(s: State, caller: nat): State {
    if IdOf(caller) !in s.pending then s
    else s.(pending := s.pending - {IdOf(caller)},
            ledger := s.ledger.(cancelled := s.ledger.cancelled + {s.pending[IdOf(caller)]}))
  }

  predicate Expected(s: State, message: ServerMessage) {
    message.ResponseMessage? && message.response.id.Some? && message.response.id.value in s.pending
  }

  /** The phase a frame moves a prompt to, if it moves it. */
  function NextPhase(status: PromptStatus, message: ServerMessage): Option<PromptPhase> {
    match message
    case ResponseMessage(Response(id, body)) =>
      if id != Some(status.requestId) then None
      else if body.ErrorBody? then Some(PromptFailed(Reported(body.error)))
      else if body == PromptBody(Some(false)) then Some(Completed(Local))
      else if body == PromptBody(Some(true)) && status.phase == Submitted then Some(InProgress)
      else None
    case PromptResult(id, agentInvoked) =>
      if id != Some(status.requestId) then None
      else if agentInvoked then Some(InProgress)
      else Some(Completed(Local))
    case AgentStart => if status.phase == Submitted then Some(InProgress) else None
    case AgentEnd => if status.phase == Submitted || status.phase == InProgress then Some(Completed(Agent)) else None
    case OtherMessage(_) => None
  }

  function PromptAfter(prompt: Option<PromptStatus>, message: ServerMessage): Option<PromptStatus> {
    if prompt.None? || NextPhase(prompt.value, message).None? then prompt
    else Some(prompt.value.(phase := NextPhase(prompt.value, message).value))
  }

  function HandleFrame(s: State, message: ServerMessage): State {
    Routed(s, message).(prompt := PromptAfter(s.prompt, message))
  }

  function Routed(s: State, message: ServerMessage): State {
    if Expected(s, message) then
      var id := message.response.id.value;
      var caller := s.pending[id];
      Answer(s, caller, Answered(message.response)).(
        pending := s.pending - {id},
        ledger := s.ledger.(handled := s.ledger.handled + [Handled(message, ToCaller(caller))]))
    else
      s.(events := s.events + [FrameEvent(message)],
         ledger := s.ledger.(handled := s.ledger.handled + [Handled(message, ToEvents)]))
  }

  function RunningStep(s: State, input: Input, limit: nat): State {
    match input
    case RequestInput(caller, isPrompt, bytes, broken) => Request(s, caller, isPrompt, bytes, broken, limit)
    case CancelInput(caller) => Cancel(s, caller)
    case SendInput(sender, bytes, broken) => Send(s, sender, bytes, broken, limit)
    case ShutdownInput(stopper) => s.(phase := ShuttingDown, stopper := stopper)
    case FrameInput(message) => if s.readerOpen then HandleFrame(s, message) else s
    case ReaderFails(reason) => if s.readerOpen then Break(s, reason) else s
    case ReaderEnds => s.(readerOpen := false)
    case ChildExits(lost) => if lost.Some? then Finish(s, FailedEvent(lost.value)) else s.(phase := Draining(false))
    case ShutdownTimesOut(lost) => s
  }

  /** Callers are no longer served; stdout still is, until the child ends or the timeout kills it. */
  function ShutdownStep(s: State, input: Input): State {
    match input
    case FrameInput(message) => if s.readerOpen then HandleFrame(s, message) else s
    case ReaderFails(reason) => if s.readerOpen then Finish(s, FailedEvent(reason)) else s
    case ReaderEnds => s.(readerOpen := false)
    case ChildExits(lost) => if lost.Some? then Finish(s, FailedEvent(lost.value)) else s.(phase := Draining(false))
    case ShutdownTimesOut(lost) =>
      var gone := s.(killed := true);
      if lost.Some? then Finish(gone, FailedEvent(lost.value)) else gone.(phase := Draining(true))
    case _ => s
  }

  function DrainStep(s: State, forced: bool, input: Input): State {
    match input
    case FrameInput(message) => HandleFrame(s, message)
    case ReaderFails(reason) => Finish(s.(events := s.events + [FailedEvent(reason)]), ExitedEvent(forced))
    case ReaderEnds => Finish(s, ExitedEvent(forced))
    case _ => s
  }

  function Step(s: State, input: Input, limit: nat): State {
    match s.phase
    case Running => RunningStep(s, input, limit)
    case ShuttingDown => ShutdownStep(s, input)
    case Draining(forced) => DrainStep(s, forced, input)
    case Ended => s
  }

  function Run(inputs: seq<Input>, limit: nat): State {
    if inputs == [] then NEW_RUNTIME
    else Step(Run(inputs[..|inputs| - 1], limit), inputs[|inputs| - 1], limit)
  }

  // ----- the actor -----

  /** Every entry of the table is filed under its caller's own identifier. */
  predicate Named(pending: map<string, nat>) {
    forall id :: id in pending ==> IdOf(pending[id]) == id
  }

  class Actor {
    const maxFrameBytes: nat
    var pending: map<string, nat>
    var answers: map<nat, seq<Reply>>
    var sends: map<nat, seq<SendReply>>
    var events: seq<RuntimeEvent>
    var readerOpen: bool
    var phase: Phase
    var prompt: Option<PromptStatus>
    var stopper: Option<nat>
    var stops: map<nat, seq<StopReply>>
    var killed: bool
    ghost var ledger: Ledger

    ghost function View(): State
      reads this
    {
      State(pending, answers, sends, events, readerOpen, phase, prompt, stopper, stops, killed, ledger)
    }

    ghost predicate Valid()
      reads this
    {
      Named(pending)
    }

    constructor (maxFrameBytes: nat)
      ensures Valid() && View() == NEW_RUNTIME && this.maxFrameBytes == maxFrameBytes
    {
      this.maxFrameBytes := maxFrameBytes;
      pending, answers, sends, events, readerOpen, phase := map[], map[], map[], [], true, Running;
      prompt, stopper, stops, killed := None, None, map[], false;
      ledger := Ledger({}, {}, []);
    }

    method SendReply(caller: nat, reply: Reply)
      modifies this`answers
      ensures View() == Answer(old(View()), caller, reply)
    {
      answers := Appended(answers, caller, reply);
    }

    method FailPending()
      requires Valid()
      modifies this`pending, this`answers
      ensures pending == map[]
      ensures answers == AppendedAll(old(answers), old(pending).Values, Failed(RuntimeStopped))
    {
      hide AppendedAll, Appended, IdOf;
      ghost var failed: set<nat> := {};
      NoneAppended(answers, Failed(RuntimeStopped));
      while pending != map[]
        invariant Named(pending) && failed !! pending.Values
        invariant failed + pending.Values == old(pending).Values
        invariant answers == AppendedAll(old(answers), failed, Failed(RuntimeStopped))
        decreases |pending.Keys|
      {
        assert pending.Keys != {};
        var id :| id in pending.Keys;
        var caller := pending[id];
        OneMoreAppended(old(answers), failed, caller, Failed(RuntimeStopped));
        RemovedValue(pending, id);
        pending := pending - {id};
        SendReply(caller, Failed(RuntimeStopped));
        failed := failed + {caller};
      }
      assert failed == old(pending).Values;
    }

    /** `publish_exit` or `publish_failure`, the answer to a shutdown, then `fail_pending`. */
    method Conclude(event: RuntimeEvent)
      requires Valid()
      modifies this
      ensures Valid() && View() == Finish(old(View()), event)
    {
      hide AppendedAll, Stop;
      ghost var was := View();
      events := events + [event];
      phase := Ended;
      StopOf(View(), was, event);
      TellStopper(event);
      FailPending();
    }

    method TellStopper(event: RuntimeEvent)
      modifies this`stops, this`stopper
      ensures stops == Stop(old(View()), event) && stopper.None?
    {
      hide Appended;
      if stopper.Some? {
        match event {
          case ExitedEvent(forced) => stops := Appended(stops, stopper.value, Stopped(forced));
          case FailedEvent(reason) => stops := Appended(stops, stopper.value, NotStopped(reason));
          case FrameEvent(_) =>
        }
      }
      stopper := None;
    }

    /** The pipe to the child is broken: kill it, wait for it, report why. */
    method GiveUp(reason: string)
      requires Valid()
      modifies this
      ensures Valid() && View() == Break(old(View()), reason)
    {
      hide Finish;
      killed := true;
      Conclude(FailedEvent(reason));
    }

    method AskChild(caller: nat, isPrompt: bool, bytes: nat, broken: Option<string>)
      requires Valid()
      modifies this
      ensures Valid() && View() == Request(old(View()), caller, isPrompt, bytes, broken, maxFrameBytes)
    {
      hide IdOf, Break, Appended;
      if isPrompt {
        prompt := Some(PromptStatus(IdOf(caller), Submitted));
      }
      ledger := ledger.(asked := ledger.asked + {caller});
      if bytes > maxFrameBytes {
        FailCurrentPrompt(IdOf(caller), TooLarge(bytes, maxFrameBytes));
        SendReply(caller, Failed(FrameTooLarge(bytes, maxFrameBytes)));
      } else if broken.Some? {
        SendReply(caller, Failed(Transport(broken.value)));
        GiveUp(broken.value);
      } else {
        pending := pending[IdOf(caller) := caller];
      }
    }

    method FailCurrentPrompt(id: string, failure: PromptFailure)
      modifies this`prompt
      ensures prompt == FailPrompt(old(prompt), id, failure)
    {
      if prompt.Some? && prompt.value.requestId == id {
        prompt := Some(prompt.value.(phase := PromptFailed(failure)));
      }
    }

    method UpdatePrompt(message: ServerMessage)
      modifies this`prompt
      ensures prompt == PromptAfter(old(prompt), message)
    {
      if prompt.None? {
        return;
      }
      var next := NextPhase(prompt.value, message);
      if next.Some? {
        prompt := Some(prompt.value.(phase := next.value));
      }
    }

    method WriteMessage(sender: nat, bytes: nat, broken: Option<string>)
      requires Valid()
      modifies this
      ensures Valid() && View() == Send(old(View()), sender, bytes, broken, maxFrameBytes)
    {
      hide IdOf, Break, Appended;
      if bytes > maxFrameBytes {
        sends := Appended(sends, sender, NotWritten(FrameTooLarge(bytes, maxFrameBytes)));
      } else if broken.Some? {
        sends := Appended(sends, sender, NotWritten(Transport(broken.value)));
        GiveUp(broken.value);
      } else {
        sends := Appended(sends, sender, Written);
      }
    }

    method CancelRequest(caller: nat)
      requires Valid()
      modifies this
      ensures Valid() && View() == Cancel(old(View()), caller)
    {
      hide IdOf;
      if IdOf(caller) in pending {
        ledger := ledger.(cancelled := ledger.cancelled + {pending[IdOf(caller)]});
        pending := pending - {IdOf(caller)};
      }
    }

    method TakeFrame(message: ServerMessage)
      requires Valid()
      modifies this
      ensures Valid() && View() == HandleFrame(old(View()), message)
    {
      hide IdOf, Appended, NextPhase;
      UpdatePrompt(message);
      if message.ResponseMessage? && message.response.id.Some? {
        var id := message.response.id.value;
        if id in pending {
          var caller := pending[id];
          pending := pending - {id};
          SendReply(caller, Answered(message.response));
          ledger := ledger.(handled := ledger.handled + [Handled(message, ToCaller(caller))]);
          return;
        }
      }
      events := events + [FrameEvent(message)];
      ledger := ledger.(handled := ledger.handled + [Handled(message, ToEvents)]);
    }

    /** One turn of the main loop. */
    method Select(input: Input)
      requires Valid()
      modifies this
      ensures Valid() && View() == RunningStep(old(View()), input, maxFrameBytes)
    {
      hide Request, Send, Cancel, HandleFrame, Finish, Break;
      match input {
        case RequestInput(caller, isPrompt, bytes, broken) => AskChild(caller, isPrompt, bytes, broken);
        case CancelInput(caller) => CancelRequest(caller);
        case SendInput(sender, bytes, broken) => WriteMessage(sender, bytes, broken);
        case ShutdownInput(caller) => phase, stopper := ShuttingDown, caller;
        case FrameInput(message) =>
          if readerOpen {
            TakeFrame(message);
          }
        case ReaderFails(reason) =>
          if readerOpen {
            GiveUp(reason);
          }
        case ReaderEnds => readerOpen := false;
        case ChildExits(lost) =>
          if lost.Some? {
            Conclude(FailedEvent(lost.value));
          } else {
            phase := Draining(false);
          }
        case ShutdownTimesOut(_) =>
      }
    }

    /** One turn of the loop that waits for the child to leave. */
    method AwaitChild(input: Input)
      requires Valid()
      modifies this
      ensures Valid() && View() == ShutdownStep(old(View()), input)
    {
      hide HandleFrame, Finish;
      match input {
        case FrameInput(message) =>
          if readerOpen {
            TakeFrame(message);
          }
        case ReaderFails(reason) =>
          if readerOpen {
            Conclude(FailedEvent(reason));
          }
        case ReaderEnds => readerOpen := false;
        case ChildExits(lost) =>
          if lost.Some? {
            Conclude(FailedEvent(lost.value));
          } else {
            phase := Draining(false);
          }
        case ShutdownTimesOut(lost) =>
          killed := true;
          if lost.Some? {
            Conclude(FailedEvent(lost.value));
          } else {
            phase := Draining(true);
          }
        case _ =>
      }
    }

    /** One turn of the loop that reads out what the child left behind. */
    method Drain(forced: bool, input: Input)
      requires Valid()
      modifies this
      ensures Valid() && View() == DrainStep(old(View()), forced, input)
    {
      hide HandleFrame, Finish;
      match input {
        case FrameInput(message) => TakeFrame(message);
        case ReaderFails(reason) =>
          events := events + [FailedEvent(reason)];
          Conclude(ExitedEvent(forced));
        case ReaderEnds => Conclude(ExitedEvent(forced));
        case _ =>
      }
    }

    method RunActor(inputs: seq<Input>)
      requires Valid() && View() == NEW_RUNTIME
      modifies this
      ensures Valid() && View() == Run(inputs, maxFrameBytes)
    {
      hide RunningStep, ShutdownStep, DrainStep, Named;
      for i := 0 to |inputs|
        invariant Valid() && View() == Run(inputs[..i], maxFrameBytes)
      {
        assert inputs[..i + 1][..i] == inputs[..i];
        match phase {
          case Running => Select(inputs[i]);
          case ShuttingDown => AwaitChild(inputs[i]);
          case Draining(forced) => Drain(forced, inputs[i]);
          case Ended =>
        }
      }
      assert inputs[..|inputs|] == inputs;
    }
  }

  lemma RemovedValue(pending: map<string, nat>, id: string)
    requires Named(pending) && id in pending
    ensures (pending - {id}).Values == pending.Values - {pending[id]}
    ensures Named(pending - {id}) && pending[id] in pending.Values
    ensures |(pending - {id}).Keys| < |pending.Keys|
  {
    var rest := pending - {id};
    assert rest.Keys == pending.Keys - {id};
    forall v | v in pending.Values - {pending[id]} ensures v in rest.Values {
      var k :| k in pending && pending[k] == v;
      assert k in rest;
    }
    forall v | v in rest.Values ensures v in pending.Values && v != pending[id] {
      var k :| k in rest && rest[k] == v;
      assert IdOf(v) == k;
    }
  }

  // ----- what every run keeps -----

  /** A call that reached the actor is waiting, or was answered once, or was cancelled: exactly one of them. */
  predicate StandsOnce(s: State, n: nat) {
    if IdOf(n) in s.pending && s.pending[IdOf(n)] == n then n !in s.answers && n !in s.ledger.cancelled
    else if n in s.answers then |s.answers[n]| == 1 && n !in s.ledger.cancelled
    else n in s.ledger.cancelled
  }

  predicate CallsStand(s: State) {
    && Named(s.pending)
    && (forall n :: n in s.ledger.asked ==> n <= U64_MAX && StandsOnce(s, n))
    && (forall id :: id in s.pending ==> s.pending[id] in s.ledger.asked)
    && (forall n :: n in s.answers ==> n in s.ledger.asked)
    && (forall n :: n in s.ledger.cancelled ==> n in s.ledger.asked)
  }

  predicate DeliveredAt(s: State, n: nat, i: nat)
    requires n in s.answers && s.answers[n] != [] && s.answers[n][0].Answered? && i < |s.ledger.handled|
  {
    && s.ledger.handled[i].route == ToCaller(n)
    && s.ledger.handled[i].message == ResponseMessage(s.answers[n][0].response)
  }

  /** A response in a caller's channel carries that caller's identifier and is a frame the child wrote. */
  predicate WellAnswered(s: State, n: nat)
    requires n in s.answers
  {
    s.answers[n] != [] && s.answers[n][0].Answered? ==>
      s.answers[n][0].response.id == Some(IdOf(n)) && exists i :: 0 <= i < |s.ledger.handled| && DeliveredAt(s, n, i)
  }

  /** A frame given to a caller is the one answer that caller got. */
  predicate WellRouted(s: State, i: nat)
    requires i < |s.ledger.handled|
  {
    s.ledger.handled[i].route.ToCaller? ==>
      var n := s.ledger.handled[i].route.caller;
      && s.ledger.handled[i].message.ResponseMessage?
      && n in s.answers && s.answers[n] == [Answered(s.ledger.handled[i].message.response)]
  }

  predicate NoCallerTwice(s: State) {
    forall i, j :: 0 <= i < j < |s.ledger.handled| && s.ledger.handled[i].route.ToCaller? ==>
      s.ledger.handled[i].route != s.ledger.handled[j].route
  }

  function FramesOf(events: seq<RuntimeEvent>): seq<ServerMessage> {
    if events == [] then []
    else FramesOf(events[..|events| - 1]) +
         (if events[|events| - 1].FrameEvent? then [events[|events| - 1].message] else [])
  }

  function PublishedOf(handled: seq<Handled>): seq<ServerMessage> {
    if handled == [] then []
    else PublishedOf(handled[..|handled| - 1]) +
         (if handled[|handled| - 1].route == ToEvents then [handled[|handled| - 1].message] else [])
  }

  predicate FramesStand(s: State) {
    && (forall n :: n in s.answers ==> WellAnswered(s, n))
    && (forall i :: 0 <= i < |s.ledger.handled| ==> WellRouted(s, i))
    && NoCallerTwice(s)
    && FramesOf(s.events) == PublishedOf(s.ledger.handled)
  }

  predicate RuntimeInv(s: State) {
    CallsStand(s) && FramesStand(s) && (s.phase == Ended ==> s.pending == map[])
  }

  /** A call is sent to the actor once, by one of the first 2^64 callers; a reader that ended sends nothing more. */
  predicate Possible(s: State, input: Input) {
    match input
    case RequestInput(caller, _, _, _) => caller <= U64_MAX && caller !in s.ledger.asked
    case CancelInput(caller) => caller <= U64_MAX
    case FrameInput(_) => s.readerOpen
    case _ => true
  }

  predicate PossibleRun(inputs: seq<Input>, limit: nat) {
    forall i :: 0 <= i < |inputs| ==> Possible(Run(inputs[..i], limit), inputs[i])
  }

  // ----- each turn keeps the invariant -----

  lemma AnswerKeeps(s: State, n: nat, error: RequestError)
    requires RuntimeInv(s) && n <= U64_MAX && n !in s.ledger.asked
    ensures RuntimeInv(Answer(s.(ledger := s.ledger.(asked := s.ledger.asked + {n})), n, Failed(error)))
  {
    var after := Answer(s.(ledger := s.ledger.(asked := s.ledger.asked + {n})), n, Failed(error));
    AnswerKeepsCalls(s, n, error);
    hide CallsStand, NoCallerTwice;
    assert n !in s.answers by { AnswersWereAsked(s); }
    forall m | m in after.answers ensures WellAnswered(after, m) {
      if m != n {
        AnswerTransfers(s, after, m);
      }
    }
    forall i | 0 <= i < |after.ledger.handled| ensures WellRouted(after, i) {
      assert WellRouted(s, i);
    }
  }

  lemma AnswersWereAsked(s: State)
    requires CallsStand(s)
    ensures forall n :: n in s.answers ==> n in s.ledger.asked
  {
  }

  lemma AnswerKeepsCalls(s: State, n: nat, error: RequestError)
    requires CallsStand(s) && n <= U64_MAX && n !in s.ledger.asked
    ensures CallsStand(Answer(s.(ledger := s.ledger.(asked := s.ledger.asked + {n})), n, Failed(error)))
  {
    hide IdOf;
    var after := Answer(s.(ledger := s.ledger.(asked := s.ledger.asked + {n})), n, Failed(error));
    forall m | m in after.ledger.asked ensures StandsOnce(after, m) {
      if m != n {
        assert StandsOnce(s, m);
      }
    }
  }

  /** An answer stays well founded when the frames handled so far only grow. */
  lemma AnswerTransfers(s: State, after: State, n: nat)
    requires n in s.answers && WellAnswered(s, n)
    requires n in after.answers && after.answers[n] == s.answers[n]
    requires s.ledger.handled <= after.ledger.handled
    ensures WellAnswered(after, n)
  {
    if s.answers[n] != [] && s.answers[n][0].Answered? {
      var i :| 0 <= i < |s.ledger.handled| && DeliveredAt(s, n, i);
      assert DeliveredAt(after, n, i);
    }
  }

  lemma RegisterKeeps(s: State, n: nat)
    requires RuntimeInv(s) && n <= U64_MAX && n !in s.ledger.asked && s.phase != Ended
    ensures RuntimeInv(s.(pending := s.pending[IdOf(n) := n],
                          ledger := s.ledger.(asked := s.ledger.asked + {n})))
  {
    var after := s.(pending := s.pending[IdOf(n) := n], ledger := s.ledger.(asked := s.ledger.asked + {n}));
    if IdOf(n) in s.pending {
      IdsAreDistinct(n, s.pending[IdOf(n)]);
    }
    hide IdOf;
    forall m | m in after.ledger.asked ensures m <= U64_MAX && StandsOnce(after, m) {
      if m != n {
        assert StandsOnce(s, m);
        if IdOf(m) == IdOf(n) {
          IdsAreDistinct(m, n);
        }
      }
    }
    FramesKeep(s, after);
  }

  lemma FramesKeep(s: State, after: State)
    requires FramesStand(s)
    requires after.answers == s.answers && after.events == s.events && after.ledger.handled == s.ledger.handled
    ensures FramesStand(after)
  {
    forall n | n in after.answers ensures WellAnswered(after, n) {
      AnswerTransfers(s, after, n);
    }
    forall i | 0 <= i < |after.ledger.handled| ensures WellRouted(after, i) {
      assert WellRouted(s, i);
    }
  }

  lemma CancelKeeps(s: State, n: nat)
    requires RuntimeInv(s)
    ensures RuntimeInv(Cancel(s, n))
  {
    hide IdOf, FramesStand;
    var after := Cancel(s, n);
    forall m | m in after.ledger.asked ensures StandsOnce(after, m) {
      assert StandsOnce(s, m);
    }
    FramesKeep(s, after);
  }

  lemma HandleKeeps(s: State, message: ServerMessage)
    requires RuntimeInv(s) && s.phase != Ended
    ensures RuntimeInv(HandleFrame(s, message))
  {
    hide CallsStand, FramesStand, PromptAfter;
    RoutedKeeps(s, message);
    RoutedPhase(s, message);
    Aside(Routed(s, message), HandleFrame(s, message));
  }

  lemma RoutedPhase(s: State, message: ServerMessage)
    ensures Routed(s, message).phase == s.phase
  {
    hide Appended;
  }

  lemma RoutedKeeps(s: State, message: ServerMessage)
    requires RuntimeInv(s) && s.phase != Ended
    ensures RuntimeInv(Routed(s, message))
  {
    if Expected(s, message) {
      DeliveryKeepsCalls(s, message);
      DeliveryKeepsFrames(s, message);
    } else {
      PublishKeeps(s, message);
    }
  }

  lemma DeliveryKeepsCalls(s: State, message: ServerMessage)
    requires CallsStand(s) && Expected(s, message)
    ensures CallsStand(Routed(s, message))
  {
    hide IdOf;
    var after := Routed(s, message);
    var n := s.pending[message.response.id.value];
    forall m | m in after.ledger.asked ensures StandsOnce(after, m) {
      assert StandsOnce(s, m) && StandsOnce(s, n);
    }
  }

  lemma DeliveryKeepsFrames(s: State, message: ServerMessage)
    requires CallsStand(s) && FramesStand(s) && Expected(s, message)
    ensures FramesStand(Routed(s, message))
  {
    hide IdOf;
    var after := Routed(s, message);
    var n := s.pending[message.response.id.value];
    var last := |s.ledger.handled|;
    assert StandsOnce(s, n);
    assert n !in s.answers;
    assert after.ledger.handled[..last] == s.ledger.handled;
    forall m | m in after.answers ensures WellAnswered(after, m) {
      if m == n {
        assert after.answers[n] == [] + [Answered(message.response)];
        assert DeliveredAt(after, n, last);
      } else {
        AnswerTransfers(s, after, m);
      }
    }
    forall i | 0 <= i < |after.ledger.handled| ensures WellRouted(after, i) {
      if i < last {
        assert WellRouted(s, i);
      }
    }
    forall i, j | 0 <= i < j < |after.ledger.handled| && after.ledger.handled[i].route.ToCaller?
      ensures after.ledger.handled[i].route != after.ledger.handled[j].route
    {
      assert WellRouted(s, i);
    }
  }

  lemma PublishKeeps(s: State, message: ServerMessage)
    requires RuntimeInv(s) && !Expected(s, message)
    ensures RuntimeInv(Routed(s, message))
  {
    hide IdOf;
    var after := Routed(s, message);
    var last := |s.ledger.handled|;
    CallsKeep(s, after);
    assert after.ledger.handled[..last] == s.ledger.handled;
    assert after.events[..|s.events|] == s.events;
    forall n | n in after.answers ensures WellAnswered(after, n) {
      AnswerTransfers(s, after, n);
    }
    forall i | 0 <= i < |after.ledger.handled| ensures WellRouted(after, i) {
      if i < last {
        assert WellRouted(s, i);
      }
    }
    forall i, j | 0 <= i < j < |after.ledger.handled| && after.ledger.handled[i].route.ToCaller?
      ensures after.ledger.handled[i].route != after.ledger.handled[j].route
    {
    }
  }

  lemma CallsKeep(s: State, after: State)
    requires CallsStand(s) && after.pending == s.pending && after.answers == s.answers
    requires after.ledger.asked == s.ledger.asked && after.ledger.cancelled == s.ledger.cancelled
    ensures CallsStand(after)
  {
    forall n | n in after.ledger.asked ensures StandsOnce(after, n) {
      assert StandsOnce(s, n);
    }
  }

  lemma FinishKeeps(s: State, event: RuntimeEvent)
    requires CallsStand(s) && FramesStand(s) && !event.FrameEvent?
    ensures RuntimeInv(Finish(s, event))
  {
    FinishKeepsCalls(s, event);
    FinishKeepsFrames(s, event);
  }

  lemma FinishKeepsCalls(s: State, event: RuntimeEvent)
    requires CallsStand(s)
    ensures CallsStand(Finish(s, event))
  {
    hide IdOf;
    var after := Finish(s, event);
    forall n | n in after.ledger.asked ensures StandsOnce(after, n) {
      assert StandsOnce(s, n);
      if n in s.pending.Values {
        var id :| id in s.pending && s.pending[id] == n;
        assert id == IdOf(n);
        assert after.answers[n] == [] + [Failed(RuntimeStopped)];
      } else if n in s.answers {
        assert after.answers[n] == s.answers[n] + [];
      }
    }
  }

  lemma FinishKeepsFrames(s: State, event: RuntimeEvent)
    requires CallsStand(s) && FramesStand(s) && !event.FrameEvent?
    ensures FramesStand(Finish(s, event))
  {
    hide IdOf;
    var after := Finish(s, event);
    assert after.events[..|s.events|] == s.events;
    assert forall n :: n in s.pending.Values ==> n !in s.answers by {
      forall n | n in s.pending.Values ensures n !in s.answers {
        var id :| id in s.pending && s.pending[id] == n;
        assert StandsOnce(s, n);
      }
    }
    assert forall n :: n in s.answers ==> after.answers[n] == s.answers[n] by {
      assert forall n :: n in s.answers ==> s.answers[n] + [] == s.answers[n];
    }
    forall n | n in after.answers ensures WellAnswered(after, n) {
      if n in s.answers {
        AnswerTransfers(s, after, n);
      } else {
        assert after.answers[n] == [] + [Failed(RuntimeStopped)];
      }
    }
    forall i | 0 <= i < |after.ledger.handled| ensures WellRouted(after, i) {
      assert WellRouted(s, i);
    }
  }

  lemma NoticeKeeps(s: State, event: RuntimeEvent)
    requires CallsStand(s) && FramesStand(s) && !event.FrameEvent?
    ensures CallsStand(s.(events := s.events + [event])) && FramesStand(s.(events := s.events + [event]))
  {
    var after := s.(events := s.events + [event]);
    CallsKeep(s, after);
    hide CallsStand;
    assert after.events[..|s.events|] == s.events;
    FramesKeep(s, after.(events := s.events));
    forall n | n in after.answers ensures WellAnswered(after, n) {
      AnswerTransfers(s, after, n);
    }
    forall i | 0 <= i < |after.ledger.handled| ensures WellRouted(after, i) {
      assert WellRouted(s, i);
    }
  }

  lemma RequestKeeps(s: State, n: nat, isPrompt: bool, bytes: nat, broken: Option<string>, limit: nat)
    requires RuntimeInv(s) && n <= U64_MAX && n !in s.ledger.asked && s.phase == Running
    ensures RuntimeInv(Request(s, n, isPrompt, bytes, broken, limit))
  {
    hide CallsStand, FramesStand, IdOf, Answer, Break, FailPrompt;
    var shown := Shown(s, n, isPrompt);
    Aside(s, shown);
    var asked := shown.(ledger := s.ledger.(asked := s.ledger.asked + {n}));
    if bytes > limit {
      AnswerKeeps(shown, n, FrameTooLarge(bytes, limit));
      AnswerPhase(asked, n, Failed(FrameTooLarge(bytes, limit)));
      Aside(Answer(asked, n, Failed(FrameTooLarge(bytes, limit))), Request(s, n, isPrompt, bytes, broken, limit));
    } else if broken.Some? {
      AnswerKeeps(shown, n, Transport(broken.value));
      BreakKeeps(Answer(asked, n, Failed(Transport(broken.value))), broken.value);
    } else {
      RegisterKeeps(shown, n);
    }
  }

  lemma AnswerPhase(s: State, n: nat, reply: Reply)
    ensures Answer(s, n, reply).phase == s.phase
  {
    hide Appended;
  }

  lemma BreakKeeps(s: State, reason: string)
    requires CallsStand(s) && FramesStand(s)
    ensures RuntimeInv(Break(s, reason))
  {
    hide CallsStand, FramesStand, Finish;
    Aside(s, s.(killed := true));
    FinishKeeps(s.(killed := true), FailedEvent(reason));
  }

  lemma SendKeeps(s: State, sender: nat, bytes: nat, broken: Option<string>, limit: nat)
    requires RuntimeInv(s) && s.phase == Running
    ensures RuntimeInv(Send(s, sender, bytes, broken, limit))
  {
    hide CallsStand, FramesStand, IdOf, Appended, Break;
    if bytes <= limit && broken.Some? {
      var told := Told(s, sender, NotWritten(Transport(broken.value)));
      Aside(s, told);
      BreakKeeps(told, broken.value);
    } else {
      Aside(s, Send(s, sender, bytes, broken, limit));
    }
  }

  lemma StepKeepsInv(s: State, input: Input, limit: nat)
    requires RuntimeInv(s) && Possible(s, input)
    ensures RuntimeInv(Step(s, input, limit))
  {
    hide CallsStand, FramesStand, IdOf, Request, Send, Cancel, HandleFrame, Finish, Break;
    match input {
      case RequestInput(n, isPrompt, bytes, broken) =>
        if s.phase == Running {
          RequestKeeps(s, n, isPrompt, bytes, broken, limit);
        }
      case CancelInput(n) => CancelKeeps(s, n); CancelKeepsPhase(s, n);
      case SendInput(sender, bytes, broken) =>
        if s.phase == Running {
          SendKeeps(s, sender, bytes, broken, limit);
        }
      case FrameInput(message) =>
        if s.phase != Ended {
          HandleKeeps(s, message);
        }
      case ReaderFails(reason) =>
        FinishKeeps(s, FailedEvent(reason));
        BreakKeeps(s, reason);
        if s.phase.Draining? {
          NoticeKeeps(s, FailedEvent(reason));
          FinishKeeps(s.(events := s.events + [FailedEvent(reason)]), ExitedEvent(s.phase.forced));
        }
      case ReaderEnds =>
        Aside(s, s.(readerOpen := false));
        if s.phase.Draining? {
          FinishKeeps(s, ExitedEvent(s.phase.forced));
        }
      case ShutdownInput(stopper) => Aside(s, s.(phase := ShuttingDown, stopper := stopper));
      case ChildExits(lost) =>
        Aside(s, s.(phase := Draining(false)));
        if lost.Some? {
          FinishKeeps(s, FailedEvent(lost.value));
        }
      case ShutdownTimesOut(lost) =>
        Aside(s, s.(killed := true));
        Aside(s, s.(killed := true, phase := Draining(true)));
        if lost.Some? {
          FinishKeeps(s.(killed := true), FailedEvent(lost.value));
        }
    }
  }

  lemma CancelKeepsPhase(s: State, n: nat)
    ensures Cancel(s, n).phase == s.phase
  {
  }

  /** What is beside the calls and frames. */
  lemma Aside(s: State, after: State)
    requires CallsStand(s) && FramesStand(s)
    requires after == s.(readerOpen := after.readerOpen, phase := after.phase, sends := after.sends, prompt := after.prompt,
                         stopper := after.stopper, stops := after.stops, killed := after.killed)
    ensures CallsStand(after) && FramesStand(after)
  {
    CallsKeep(s, after);
    FramesKeep(s, after);
  }

  /**
   * Correlation over any interleaving of requests, cancellations, stdout frames and ways to stop:
   * every call stands exactly once, an answer with a response carries the caller's own identifier
   * and was written by the child, no frame reaches two callers or a caller and the subscribers,
   * published frames are the others in stdout order, and nothing is pending at the end.
   */
  lemma {:induction false} RuntimeInvAlways(inputs: seq<Input>, limit: nat)
    requires PossibleRun(inputs, limit)
    ensures RuntimeInv(Run(inputs, limit))
  {
    if inputs == [] {
    } else {
      hide RuntimeInv, Step;
      var last := |inputs| - 1;
      PrefixIsPossible(inputs, limit);
      RuntimeInvAlways(inputs[..last], limit);
      assert Possible(Run(inputs[..last], limit), inputs[last]);
      StepKeepsInv(Run(inputs[..last], limit), inputs[last], limit);
    }
  }

  lemma PrefixIsPossible(inputs: seq<Input>, limit: nat)
    requires inputs != [] && PossibleRun(inputs, limit)
    ensures PossibleRun(inputs[..|inputs| - 1], limit)
  {
    var before := inputs[..|inputs| - 1];
    forall i | 0 <= i < |before| ensures Possible(Run(before[..i], limit), before[i]) {
      assert before[..i] == inputs[..i];
    }
  }

  // ----- what a turn leaves alone -----

  lemma AnswerTurn(s: State, n: nat, reply: Reply)
    ensures var after := Answer(s, n, reply);
            after == s.(answers := after.answers)
  {
    hide Appended;
  }

  lemma FinishTurn(s: State, event: RuntimeEvent)
    ensures var after := Finish(s, event);
            && after.phase == Ended && after.readerOpen == s.readerOpen && after.sends == s.sends
            && after.ledger == s.ledger && after.prompt == s.prompt && after.killed == s.killed
            && after.events == s.events + [event] && after.stops == Stop(s, event) && after.stopper.None?
  {
    hide AppendedAll, Stop;
  }

  lemma BreakTurn(s: State, reason: string)
    ensures var after := Break(s, reason);
            && after.phase == Ended && after.readerOpen == s.readerOpen && after.sends == s.sends
            && after.ledger == s.ledger && after.prompt == s.prompt && after.killed
            && after.events == s.events + [FailedEvent(reason)] && after.stops == Stop(s, FailedEvent(reason))
            && after.stopper.None?
  {
    hide Finish, Stop;
    FinishTurn(s.(killed := true), FailedEvent(reason));
    assert Stop(s.(killed := true), FailedEvent(reason)) == Stop(s, FailedEvent(reason)) by { KilledStops(s, reason); }
  }

  lemma KilledStops(s: State, reason: string)
    ensures Stop(s.(killed := true), FailedEvent(reason)) == Stop(s, FailedEvent(reason))
  {
  }

  lemma RequestTurn(s: State, caller: nat, isPrompt: bool, bytes: nat, broken: Option<string>, limit: nat)
    ensures var after := Request(s, caller, isPrompt, bytes, broken, limit);
            && after.readerOpen == s.readerOpen && after.sends == s.sends && after.ledger.handled == s.ledger.handled
            && (if bytes <= limit && broken.Some? then
                  after.phase == Ended && after.prompt == Shown(s, caller, isPrompt).prompt && after.stopper.None?
                  && after.stops == Stop(s, FailedEvent(broken.value)) && after.killed
                  && after.events == s.events + [FailedEvent(broken.value)]
                else
                  after.phase == s.phase && after.stopper == s.stopper && after.stops == s.stops && after.killed == s.killed
                  && after.events == s.events)
  {
    hide Answer, Break, Stop, FailPrompt, IdOf;
    var shown := Shown(s, caller, isPrompt);
    var asked := shown.(ledger := s.ledger.(asked := s.ledger.asked + {caller}));
    if bytes > limit {
      AnswerTurn(asked, caller, Failed(FrameTooLarge(bytes, limit)));
    } else if broken.Some? {
      AnswerTurn(asked, caller, Failed(Transport(broken.value)));
      var told := Answer(asked, caller, Failed(Transport(broken.value)));
      BreakTurn(told, broken.value);
      StopOf(told, s, FailedEvent(broken.value));
    }
  }

  lemma StopOf(a: State, b: State, event: RuntimeEvent)
    requires a.stopper == b.stopper && a.stops == b.stops
    ensures Stop(a, event) == Stop(b, event)
  {
    hide Appended;
  }

  lemma SendTurn(s: State, sender: nat, bytes: nat, broken: Option<string>, limit: nat)
    ensures var after := Send(s, sender, bytes, broken, limit);
            && after.readerOpen == s.readerOpen && after.ledger == s.ledger && after.prompt == s.prompt
            && after.sends == Told(s, sender, ReplyFor(bytes, broken, limit)).sends
            && (if bytes <= limit && broken.Some? then
                  after.phase == Ended && after.stopper.None? && after.stops == Stop(s, FailedEvent(broken.value))
                  && after.killed && after.events == s.events + [FailedEvent(broken.value)]
                else
                  after.phase == s.phase && after.stopper == s.stopper && after.stops == s.stops && after.killed == s.killed
                  && after.events == s.events)
  {
    hide Break, Stop, Appended;
    if bytes <= limit && broken.Some? {
      var told := Told(s, sender, NotWritten(Transport(broken.value)));
      BreakTurn(told, broken.value);
      StopOf(told, s, FailedEvent(broken.value));
    }
  }

  lemma CancelTurn(s: State, n: nat)
    ensures var after := Cancel(s, n);
            after == s.(pending := after.pending, ledger := after.ledger) && after.ledger.handled == s.ledger.handled
  {
    hide IdOf;
  }

  lemma HandleTurn(s: State, message: ServerMessage)
    ensures var after := HandleFrame(s, message);
            && after == s.(pending := after.pending, answers := after.answers, events := after.events,
                           prompt := PromptAfter(s.prompt, message), ledger := after.ledger)
            && |after.ledger.handled| == |s.ledger.handled| + 1
            && after.ledger.handled[..|s.ledger.handled|] == s.ledger.handled
            && after.ledger.handled[|s.ledger.handled|].message == message
            && (after.events == s.events || after.events == s.events + [FrameEvent(message)])
  {
    hide Appended, PromptAfter;
  }

  /** The frame reaches `handle_frame`. */
  predicate TakesFrame(s: State, input: Input) {
    input.FrameInput? && (s.phase.Draining? || (s.phase != Ended && s.readerOpen))
  }

  /** What one turn does to everything but the calls. */
  predicate Turned(s: State, input: Input, limit: nat, after: State) {
    && after.sends == (if input.SendInput? && s.phase == Running
                       then Told(s, input.sender, ReplyFor(input.bytes, input.broken, limit)).sends else s.sends)
    && after.readerOpen == (s.readerOpen && !(input.ReaderEnds? && (s.phase == Running || s.phase == ShuttingDown)))
    && (if TakesFrame(s, input) then
          && |after.ledger.handled| == |s.ledger.handled| + 1
          && after.ledger.handled[..|s.ledger.handled|] == s.ledger.handled
          && after.ledger.handled[|s.ledger.handled|].message == input.message
        else after.ledger.handled == s.ledger.handled)
    && (s.phase == Ended ==> after == s)
    && (after.phase == Running ==> s.phase == Running)
  }

  lemma RunningTurn(s: State, input: Input, limit: nat)
    requires s.phase == Running
    ensures Turned(s, input, limit, RunningStep(s, input, limit))
  {
    hide Request, Send, Cancel, HandleFrame, Finish, Break, Told, ReplyFor, Stop, PromptAfter, Shown;
    match input {
      case RequestInput(caller, isPrompt, bytes, broken) => RequestTurn(s, caller, isPrompt, bytes, broken, limit);
      case SendInput(sender, bytes, broken) => SendTurn(s, sender, bytes, broken, limit);
      case CancelInput(caller) => CancelTurn(s, caller);
      case FrameInput(message) => HandleTurn(s, message);
      case ReaderFails(reason) => BreakTurn(s, reason);
      case ChildExits(lost) => if lost.Some? { FinishTurn(s, FailedEvent(lost.value)); }
      case _ =>
    }
  }

  lemma ShutdownTurn(s: State, input: Input, limit: nat)
    requires s.phase == ShuttingDown
    ensures Turned(s, input, limit, ShutdownStep(s, input))
  {
    hide HandleFrame, Finish, Told, Stop, PromptAfter;
    match input {
      case FrameInput(message) => HandleTurn(s, message);
      case ReaderFails(reason) => FinishTurn(s, FailedEvent(reason));
      case ChildExits(lost) => if lost.Some? { FinishTurn(s, FailedEvent(lost.value)); }
      case ShutdownTimesOut(lost) => if lost.Some? { FinishTurn(s.(killed := true), FailedEvent(lost.value)); }
      case _ =>
    }
  }

  lemma DrainTurn(s: State, input: Input, limit: nat)
    requires s.phase.Draining?
    ensures Turned(s, input, limit, DrainStep(s, s.phase.forced, input))
  {
    hide HandleFrame, Finish, Told, Stop, PromptAfter;
    match input {
      case FrameInput(message) => HandleTurn(s, message);
      case ReaderFails(reason) => FinishTurn(s.(events := s.events + [FailedEvent(reason)]), ExitedEvent(s.phase.forced));
      case ReaderEnds => FinishTurn(s, ExitedEvent(s.phase.forced));
      case _ =>
    }
  }

  lemma EachTurn(s: State, input: Input, limit: nat)
    ensures Turned(s, input, limit, Step(s, input, limit))
  {
    match s.phase {
      case Running => hide RunningStep, Turned; RunningTurn(s, input, limit);
      case ShuttingDown => hide ShutdownStep, Turned; ShutdownTurn(s, input, limit);
      case Draining(_) => hide DrainStep, Turned; DrainTurn(s, input, limit);
      case Ended => hide Told, ReplyFor;
    }
  }

  // ----- plain sends -----

  /** The input ends the main loop, given what came before it. */
  predicate Stops(before: seq<Input>, input: Input, limit: nat) {
    match input
    case RequestInput(_, _, bytes, broken) => bytes <= limit && broken.Some?
    case SendInput(_, bytes, broken) => bytes <= limit && broken.Some?
    case ShutdownInput(_) => true
    case ReaderFails(_) => !ReaderEnded(before)
    case ChildExits(_) => true
    case _ => false
  }

  predicate ReaderEnded(inputs: seq<Input>) {
    exists i :: 0 <= i < |inputs| && inputs[i].ReaderEnds?
  }

  /** Callers are served until the first input that ends the main loop. */
  predicate Serving(inputs: seq<Input>, limit: nat) {
    forall i :: 0 <= i < |inputs| ==> !Stops(inputs[..i], inputs[i], limit)
  }

  lemma {:induction false} ServingExactlyWhenRunning(inputs: seq<Input>, limit: nat)
    ensures Serving(inputs, limit) <==> Run(inputs, limit).phase == Running
    ensures Serving(inputs, limit) ==> (Run(inputs, limit).readerOpen <==> !ReaderEnded(inputs))
  {
    if inputs != [] {
      hide Step, Stops;
      var last := |inputs| - 1;
      ServingExactlyWhenRunning(inputs[..last], limit);
      ServingBefore(inputs, limit);
      ReaderEndedStep(inputs);
      PhaseStep(Run(inputs[..last], limit), inputs[..last], inputs[last], limit);
    }
  }

  lemma ServingBefore(inputs: seq<Input>, limit: nat)
    requires inputs != []
    ensures var last := |inputs| - 1;
            Serving(inputs, limit) <==> Serving(inputs[..last], limit) && !Stops(inputs[..last], inputs[last], limit)
  {
    hide Stops;
    var last := |inputs| - 1;
    assert forall i :: 0 <= i < last ==> inputs[..last][..i] == inputs[..i];
    if Serving(inputs[..last], limit) && !Stops(inputs[..last], inputs[last], limit) {
      forall i | 0 <= i < |inputs| ensures !Stops(inputs[..i], inputs[i], limit) {
        assert i < last ==> !Stops(inputs[..last][..i], inputs[..last][i], limit);
      }
    }
    if Serving(inputs, limit) {
      forall i | 0 <= i < last ensures !Stops(inputs[..last][..i], inputs[..last][i], limit) {
        assert !Stops(inputs[..i], inputs[i], limit);
      }
    }
  }

  lemma ReaderEndedStep(inputs: seq<Input>)
    requires inputs != []
    ensures ReaderEnded(inputs) <==> ReaderEnded(inputs[..|inputs| - 1]) || inputs[|inputs| - 1].ReaderEnds?
  {
    var before := inputs[..|inputs| - 1];
    if ReaderEnded(before) {
      var i :| 0 <= i < |before| && before[i].ReaderEnds?;
      assert inputs[i].ReaderEnds?;
    }
    if ReaderEnded(inputs) {
      var i :| 0 <= i < |inputs| && inputs[i].ReaderEnds?;
      assert i < |before| ==> before[i].ReaderEnds?;
    }
  }

  /** The main loop goes on exactly if the input does not stop it, and no other loop comes back to it. */
  lemma PhaseStep(s: State, before: seq<Input>, input: Input, limit: nat)
    requires s.phase == Running ==> (s.readerOpen <==> !ReaderEnded(before))
    ensures Step(s, input, limit).phase == Running <==> s.phase == Running && !Stops(before, input, limit)
    ensures Step(s, input, limit).phase == Running ==>
              (Step(s, input, limit).readerOpen <==> s.readerOpen && !input.ReaderEnds?)
  {
    EachTurn(s, input, limit);
    if s.phase == Running {
      hide Request, Send, Cancel, HandleFrame, Finish, Break, ReaderEnded;
      match input {
        case RequestInput(caller, isPrompt, bytes, broken) => RequestTurn(s, caller, isPrompt, bytes, broken, limit);
        case SendInput(sender, bytes, broken) => SendTurn(s, sender, bytes, broken, limit);
        case CancelInput(caller) => CancelTurn(s, caller);
        case FrameInput(message) => HandleTurn(s, message);
        case ReaderFails(reason) => BreakTurn(s, reason);
        case ChildExits(lost) => if lost.Some? { FinishTurn(s, FailedEvent(lost.value)); }
        case _ =>
      }
    } else {
      hide Step, Stops;
    }
  }

  function ReplyFor(bytes: nat, broken: Option<string>, limit: nat): SendReply {
    if bytes > limit then NotWritten(FrameTooLarge(bytes, limit))
    else if broken.Some? then NotWritten(Transport(broken.value))
    else Written
  }

  /** One reply for each plain send that came while callers were served, in their order. */
  function RepliesDue(inputs: seq<Input>, limit: nat, sender: nat): seq<SendReply> {
    if inputs == [] then []
    else
      var before := inputs[..|inputs| - 1];
      var last := inputs[|inputs| - 1];
      RepliesDue(before, limit, sender)
      + (if last.SendInput? && last.sender == sender && Serving(before, limit) then [ReplyFor(last.bytes, last.broken, limit)]
         else [])
  }

  function Heard(s: State, sender: nat): seq<SendReply> {
    if sender in s.sends then s.sends[sender] else []
  }

  /**
   * Over any run, whoever sends and however often: a sender hears exactly one reply for each of its
   * plain sends that came before the main loop ended, in their order, and nothing else.
   */
  lemma {:induction false} SendsAreAnsweredOnce(inputs: seq<Input>, limit: nat, sender: nat)
    ensures Heard(Run(inputs, limit), sender) == RepliesDue(inputs, limit, sender)
  {
    if inputs != [] {
      hide Step, Serving, Heard;
      var last := |inputs| - 1;
      SendsAreAnsweredOnce(inputs[..last], limit, sender);
      ServingExactlyWhenRunning(inputs[..last], limit);
      SendsGrow(Run(inputs[..last], limit), inputs[last], limit, sender);
    } else {
      assert Run([], limit) == NEW_RUNTIME;
    }
  }

  lemma SendsGrow(s: State, input: Input, limit: nat, sender: nat)
    ensures Heard(Step(s, input, limit), sender) ==
            Heard(s, sender)
            + (if input.SendInput? && input.sender == sender && s.phase == Running
               then [ReplyFor(input.bytes, input.broken, limit)] else [])
  {
    EachTurn(s, input, limit);
    hide Step, Appended, ReplyFor;
    if input.SendInput? && s.phase == Running {
      TellingTells(s, input.sender, ReplyFor(input.bytes, input.broken, limit), sender);
    }
  }

  lemma TellingTells(s: State, sender: nat, reply: SendReply, other: nat)
    ensures forall after: State :: after.sends == Told(s, sender, reply).sends ==>
              Heard(after, other) == Heard(s, other) + (if other == sender then [reply] else [])
  {
    assert Heard(s, other) + [] == Heard(s, other);
  }

  /** A plain send that the actor takes is answered in that turn with what became of its write, and keeps its answer. */
  lemma {:induction false} SendIsAnswered(inputs: seq<Input>, limit: nat, i: nat)
    requires i < |inputs| && inputs[i].SendInput? && Serving(inputs[..i], limit)
    ensures var sender := inputs[i].sender;
            var earlier := RepliesDue(inputs[..i], limit, sender);
            var heard := Heard(Run(inputs, limit), sender);
            && earlier + [ReplyFor(inputs[i].bytes, inputs[i].broken, limit)] <= heard
            && Heard(Run(inputs[..i + 1], limit), sender) == earlier + [ReplyFor(inputs[i].bytes, inputs[i].broken, limit)]
    decreases |inputs|
  {
    hide Step, Serving, Run, Heard;
    var last := |inputs| - 1;
    var sender := inputs[i].sender;
    SendsAreAnsweredOnce(inputs, limit, sender);
    if i < last {
      assert inputs[..last][..i] == inputs[..i] && inputs[..last][i] == inputs[i];
      assert inputs[..last][..i + 1] == inputs[..i + 1];
      SendIsAnswered(inputs[..last], limit, i);
      SendsAreAnsweredOnce(inputs[..last], limit, sender);
    } else {
      assert inputs[..i + 1] == inputs;
    }
  }

  // ----- the end of the runtime -----

  /** Who asked for the shutdown that ended the main loop, if that is what ended it. */
  function ShutdownCaller(inputs: seq<Input>, limit: nat): Option<nat> {
    if inputs == [] then None
    else
      var before := inputs[..|inputs| - 1];
      var last := inputs[|inputs| - 1];
      if last.ShutdownInput? && Serving(before, limit) then last.stopper else ShutdownCaller(before, limit)
  }

  lemma {:induction false} NobodyAskedYet(inputs: seq<Input>, limit: nat)
    requires Serving(inputs, limit)
    ensures ShutdownCaller(inputs, limit).None?
  {
    if inputs != [] {
      hide Stops;
      ServingBefore(inputs, limit);
      assert !Stops(inputs[..|inputs| - 1], inputs[|inputs| - 1], limit);
      NobodyAskedYet(inputs[..|inputs| - 1], limit);
      LastDoesNotShutDown(inputs, limit);
    }
  }

  lemma LastDoesNotShutDown(inputs: seq<Input>, limit: nat)
    requires inputs != [] && !Stops(inputs[..|inputs| - 1], inputs[|inputs| - 1], limit)
    ensures !inputs[|inputs| - 1].ShutdownInput?
  {
  }

  function StopReplyFor(event: RuntimeEvent): StopReply
    requires !event.FrameEvent?
  {
    if event.ExitedEvent? then Stopped(event.forced) else NotStopped(event.reason)
  }

  /**
   * Nobody has heard of an end before it comes; then the caller of the shutdown hears exactly what the
   * last event says.
   */
  predicate EndIsTold(s: State, caller: Option<nat>) {
    if s.phase != Ended then s.stopper == caller && s.stops == map[]
    else
      && s.events != [] && !s.events[|s.events| - 1].FrameEvent?
      && s.stops == if caller.None? then map[] else map[caller.value := [StopReplyFor(s.events[|s.events| - 1])]]
  }

  lemma FinishTells(s: State, event: RuntimeEvent, after: State)
    requires s.stops == map[] && !event.FrameEvent?
    requires after.phase == Ended && after.stops == Stop(s, event) && after.events == s.events + [event]
    ensures EndIsTold(after, s.stopper)
  {
    assert [] + [StopReplyFor(event)] == [StopReplyFor(event)];
  }

  lemma RunningTells(s: State, input: Input, limit: nat)
    requires s.phase == Running && EndIsTold(s, None)
    ensures EndIsTold(RunningStep(s, input, limit), if input.ShutdownInput? then input.stopper else None)
  {
    hide Request, Send, Cancel, HandleFrame, Finish, Break, Told, Stop, PromptAfter, Shown;
    var after := RunningStep(s, input, limit);
    match input {
      case RequestInput(caller, isPrompt, bytes, broken) =>
        RequestTurn(s, caller, isPrompt, bytes, broken, limit);
        if bytes <= limit && broken.Some? { FinishTells(s, FailedEvent(broken.value), after); }
      case SendInput(sender, bytes, broken) =>
        SendTurn(s, sender, bytes, broken, limit);
        if bytes <= limit && broken.Some? { FinishTells(s, FailedEvent(broken.value), after); }
      case CancelInput(caller) => CancelTurn(s, caller);
      case FrameInput(message) => HandleTurn(s, message);
      case ReaderFails(reason) =>
        BreakTurn(s, reason);
        if s.readerOpen { FinishTells(s, FailedEvent(reason), after); }
      case ChildExits(lost) =>
        if lost.Some? {
          FinishTurn(s, FailedEvent(lost.value));
          FinishTells(s, FailedEvent(lost.value), after);
        }
      case _ =>
    }
  }

  lemma ShutdownTells(s: State, input: Input)
    requires s.phase == ShuttingDown && EndIsTold(s, s.stopper)
    ensures EndIsTold(ShutdownStep(s, input), s.stopper)
  {
    hide HandleFrame, Finish, Stop, PromptAfter;
    var after := ShutdownStep(s, input);
    match input {
      case FrameInput(message) => HandleTurn(s, message);
      case ReaderFails(reason) =>
        FinishTurn(s, FailedEvent(reason));
        if s.readerOpen { FinishTells(s, FailedEvent(reason), after); }
      case ChildExits(lost) =>
        if lost.Some? {
          FinishTurn(s, FailedEvent(lost.value));
          FinishTells(s, FailedEvent(lost.value), after);
        }
      case ShutdownTimesOut(lost) =>
        if lost.Some? {
          FinishTurn(s.(killed := true), FailedEvent(lost.value));
          FinishTells(s.(killed := true), FailedEvent(lost.value), after);
        }
      case _ =>
    }
  }

  lemma DrainTells(s: State, input: Input)
    requires s.phase.Draining? && EndIsTold(s, s.stopper)
    ensures EndIsTold(DrainStep(s, s.phase.forced, input), s.stopper)
  {
    hide HandleFrame, Finish, Stop, PromptAfter;
    var after := DrainStep(s, s.phase.forced, input);
    match input {
      case FrameInput(message) => HandleTurn(s, message);
      case ReaderFails(reason) =>
        var noted := s.(events := s.events + [FailedEvent(reason)]);
        FinishTurn(noted, ExitedEvent(s.phase.forced));
        FinishTells(noted, ExitedEvent(s.phase.forced), after);
      case ReaderEnds =>
        FinishTurn(s, ExitedEvent(s.phase.forced));
        FinishTells(s, ExitedEvent(s.phase.forced), after);
      case _ =>
    }
  }

  /**
   * Over any run: until the actor has ended no caller of a shutdown has heard anything; then the one
   * whose request ended the main loop has heard exactly once how it ended, as the last event says it.
   */
  lemma {:induction false} ShutdownIsAnsweredOnce(inputs: seq<Input>, limit: nat)
    ensures EndIsTold(Run(inputs, limit), ShutdownCaller(inputs, limit))
  {
    if inputs != [] {
      hide EndIsTold, Serving;
      var before := inputs[..|inputs| - 1];
      var last := inputs[|inputs| - 1];
      var s := Run(before, limit);
      ShutdownIsAnsweredOnce(before, limit);
      ServingExactlyWhenRunning(before, limit);
      match s.phase {
        case Running => hide RunningStep; NobodyAskedYet(before, limit); RunningTells(s, last, limit);
        case ShuttingDown => hide ShutdownStep; WaitsForEnd(s, ShutdownCaller(before, limit)); ShutdownTells(s, last);
        case Draining(_) => hide DrainStep; WaitsForEnd(s, ShutdownCaller(before, limit)); DrainTells(s, last);
        case Ended =>
      }
    }
  }

  lemma WaitsForEnd(s: State, caller: Option<nat>)
    requires EndIsTold(s, caller) && s.phase != Ended
    ensures s.stopper == caller
  {
  }

  /** The turn asks to kill the child: its pipe or its stdout broke while callers were served, or a shutdown took too long. */
  predicate Kills(s: State, input: Input, limit: nat) {
    match input
    case RequestInput(_, _, bytes, broken) => s.phase == Running && bytes <= limit && broken.Some?
    case SendInput(_, bytes, broken) => s.phase == Running && bytes <= limit && broken.Some?
    case ReaderFails(_) => s.phase == Running && s.readerOpen
    case ShutdownTimesOut(_) => s.phase == ShuttingDown
    case _ => false
  }

  predicate KillsAt(inputs: seq<Input>, limit: nat, i: nat)
    requires i < |inputs|
  {
    Kills(Run(inputs[..i], limit), inputs[i], limit)
  }

  lemma KilledStep(s: State, input: Input, limit: nat)
    ensures Step(s, input, limit).killed <==> s.killed || Kills(s, input, limit)
  {
    TurnOf(s, input, limit);
    hide Step, PromptTurn;
  }

  /** Over any run killing the child was asked for if and only if some turn broke its transport or timed out its shutdown. */
  lemma {:induction false} KilledExactlyWhen(inputs: seq<Input>, limit: nat)
    ensures Run(inputs, limit).killed <==> exists i :: 0 <= i < |inputs| && KillsAt(inputs, limit, i)
  {
    if inputs != [] {
      hide Step, Kills, Run;
      var last := |inputs| - 1;
      KilledExactlyWhen(inputs[..last], limit);
      KilledStep(Run(inputs[..last], limit), inputs[last], limit);
      RunLast(inputs, limit);
      KillsBefore(inputs, limit);
    } else {
      assert Run([], limit) == NEW_RUNTIME;
    }
  }

  lemma KillsBefore(inputs: seq<Input>, limit: nat)
    requires inputs != []
    ensures var last := |inputs| - 1;
            (exists i :: 0 <= i < |inputs| && KillsAt(inputs, limit, i))
            <==> (exists i :: 0 <= i < last && KillsAt(inputs[..last], limit, i))
                 || Kills(Run(inputs[..last], limit), inputs[last], limit)
  {
    hide Run, Kills;
    var last := |inputs| - 1;
    var before := inputs[..last];
    forall i | 0 <= i < last ensures KillsAt(before, limit, i) <==> KillsAt(inputs, limit, i) {
      assert before[..i] == inputs[..i];
    }
    assert KillsAt(inputs, limit, last) <==> Kills(Run(before, limit), inputs[last], limit);
  }

  // ----- the latest prompt -----

  /** The last prompt that reached the actor while callers were served. */
  function LatestPrompt(inputs: seq<Input>, limit: nat): Option<nat> {
    if inputs == [] then None
    else
      var before := inputs[..|inputs| - 1];
      var last := inputs[|inputs| - 1];
      if last.RequestInput? && last.isPrompt && Serving(before, limit) then Some(last.caller) else LatestPrompt(before, limit)
  }

  /** What one turn does to the prompt shown. */
  function PromptTurn(s: State, input: Input, limit: nat): Option<PromptStatus> {
    if input.RequestInput? && s.phase == Running then
      var shown := Shown(s, input.caller, input.isPrompt).prompt;
      if input.bytes > limit then FailPrompt(shown, IdOf(input.caller), TooLarge(input.bytes, limit)) else shown
    else if TakesFrame(s, input) then PromptAfter(s.prompt, input.message)
    else s.prompt
  }

  lemma PromptStep(s: State, input: Input, limit: nat)
    ensures Step(s, input, limit).prompt == PromptTurn(s, input, limit)
  {
    TurnOf(s, input, limit);
    hide Step, Kills, PromptTurn;
  }

  /** What one turn does to the prompt shown and to the child. */
  predicate Moved(s: State, input: Input, limit: nat, after: State) {
    && after.prompt == PromptTurn(s, input, limit)
    && (after.killed <==> s.killed || Kills(s, input, limit))
  }

  lemma RunningMoves(s: State, input: Input, limit: nat)
    requires s.phase == Running
    ensures Moved(s, input, limit, RunningStep(s, input, limit))
  {
    if input.RequestInput? {
      RequestMoves(s, input, limit);
    } else {
      hide Request, Break, Send, Cancel, HandleFrame, Finish, Stop, PromptAfter, Shown, FailPrompt;
      match input {
        case SendInput(sender, bytes, broken) => SendTurn(s, sender, bytes, broken, limit);
        case CancelInput(caller) => CancelTurn(s, caller);
        case FrameInput(message) => HandleTurn(s, message);
        case ReaderFails(reason) => BreakTurn(s, reason);
        case ChildExits(lost) => if lost.Some? { FinishTurn(s, FailedEvent(lost.value)); }
        case _ =>
      }
    }
  }

  lemma RequestMoves(s: State, input: Input, limit: nat)
    requires s.phase == Running && input.RequestInput?
    ensures Moved(s, input, limit, Request(s, input.caller, input.isPrompt, input.bytes, input.broken, limit))
  {
    hide Break, Answer, Stop, IdOf, FailPrompt;
    RequestTurn(s, input.caller, input.isPrompt, input.bytes, input.broken, limit);
  }

  lemma ShutdownMoves(s: State, input: Input, limit: nat)
    requires s.phase == ShuttingDown
    ensures Moved(s, input, limit, ShutdownStep(s, input))
  {
    hide HandleFrame, Finish, Stop, PromptAfter, Shown, FailPrompt;
    match input {
      case FrameInput(message) => HandleTurn(s, message);
      case ReaderFails(reason) => FinishTurn(s, FailedEvent(reason));
      case ChildExits(lost) => if lost.Some? { FinishTurn(s, FailedEvent(lost.value)); }
      case ShutdownTimesOut(lost) => if lost.Some? { FinishTurn(s.(killed := true), FailedEvent(lost.value)); }
      case _ =>
    }
  }

  lemma DrainMoves(s: State, input: Input, limit: nat)
    requires s.phase.Draining?
    ensures Moved(s, input, limit, DrainStep(s, s.phase.forced, input))
  {
    hide HandleFrame, Finish, Stop, PromptAfter, Shown, FailPrompt;
    match input {
      case FrameInput(message) => HandleTurn(s, message);
      case ReaderFails(reason) => FinishTurn(s.(events := s.events + [FailedEvent(reason)]), ExitedEvent(s.phase.forced));
      case ReaderEnds => FinishTurn(s, ExitedEvent(s.phase.forced));
      case _ =>
    }
  }

  lemma TurnOf(s: State, input: Input, limit: nat)
    ensures Moved(s, input, limit, Step(s, input, limit))
  {
    match s.phase {
      case Running => hide RunningStep, Moved; RunningMoves(s, input, limit);
      case ShuttingDown => hide ShutdownStep, Moved; ShutdownMoves(s, input, limit);
      case Draining(_) => hide DrainStep, Moved; DrainMoves(s, input, limit);
      case Ended => hide Shown, FailPrompt, PromptAfter;
    }
  }

  /** Over any run the prompt shown is the latest one. */
  lemma {:induction false} PromptIsTheLatest(inputs: seq<Input>, limit: nat)
    ensures var shown := Run(inputs, limit).prompt;
            if LatestPrompt(inputs, limit).None? then shown.None?
            else shown.Some? && shown.value.requestId == IdOf(LatestPrompt(inputs, limit).value)
  {
    if inputs != [] {
      hide Step, Serving, IdOf, NextPhase;
      var before := inputs[..|inputs| - 1];
      PromptIsTheLatest(before, limit);
      ServingExactlyWhenRunning(before, limit);
      PromptStep(Run(before, limit), inputs[|inputs| - 1], limit);
    }
  }

  /** The input is about this request, or replaces the prompt shown. */
  predicate Touches(input: Input, id: string) {
    match input
    case RequestInput(caller, isPrompt, _, _) => isPrompt || IdOf(caller) == id
    case FrameInput(ResponseMessage(response)) => response.id == Some(id)
    case FrameInput(PromptResult(named, _)) => named == Some(id)
    case _ => false
  }

  predicate NoneTouches(inputs: seq<Input>, from: nat, id: string) {
    forall k :: from <= k < |inputs| ==> !Touches(inputs[k], id)
  }

  /** A finished prompt stays as it is until another prompt comes or a frame names it; session events do not move it. */
  lemma {:induction false} FinishedPromptStays(inputs: seq<Input>, limit: nat, i: nat, status: PromptStatus)
    requires i <= |inputs| && Run(inputs[..i], limit).prompt == Some(status) && status.phase.Finished()
    requires NoneTouches(inputs, i, status.requestId)
    ensures Run(inputs, limit).prompt == Some(status)
    decreases |inputs|
  {
    hide Step, Touches, Run, PromptTurn;
    if i == |inputs| {
      assert inputs[..i] == inputs;
    } else {
      var last := |inputs| - 1;
      RunLast(inputs, limit);
      assert inputs[..last][..i] == inputs[..i];
      FinishedPromptStays(inputs[..last], limit, i, status);
      PromptStep(Run(inputs[..last], limit), inputs[last], limit);
      UntouchedStays(Run(inputs[..last], limit), inputs[last], limit, status);
    }
  }

  lemma UntouchedStays(s: State, input: Input, limit: nat, status: PromptStatus)
    requires s.prompt == Some(status) && status.phase.Finished() && !Touches(input, status.requestId)
    ensures PromptTurn(s, input, limit) == Some(status)
  {
    hide IdOf;
  }

  /** A prompt whose write breaks the pipe is never marked as failed: it stays submitted for good. */
  lemma {:induction false} UnsentPromptStaysSubmitted(inputs: seq<Input>, limit: nat, i: nat)
    requires i < |inputs| && Serving(inputs[..i], limit)
    requires inputs[i].RequestInput? && inputs[i].isPrompt && inputs[i].bytes <= limit && inputs[i].broken.Some?
    ensures Run(inputs, limit).phase == Ended
    ensures Run(inputs, limit).prompt == Some(PromptStatus(IdOf(inputs[i].caller), Submitted))
    decreases |inputs|
  {
    hide Serving, IdOf, Step, Run;
    var last := |inputs| - 1;
    RunLast(inputs, limit);
    if i < last {
      assert inputs[..last][..i] == inputs[..i] && inputs[..last][i] == inputs[i];
      UnsentPromptStaysSubmitted(inputs[..last], limit, i);
      EachTurn(Run(inputs[..last], limit), inputs[last], limit);
    } else {
      ServingExactlyWhenRunning(inputs[..i], limit);
      BreakingPrompt(Run(inputs[..i], limit), inputs[i], limit);
    }
  }

  lemma RunLast(inputs: seq<Input>, limit: nat)
    requires inputs != []
    ensures Run(inputs, limit) == Step(Run(inputs[..|inputs| - 1], limit), inputs[|inputs| - 1], limit)
  {
    hide Step;
  }

  lemma BreakingPrompt(s: State, input: Input, limit: nat)
    requires s.phase == Running && input.RequestInput? && input.isPrompt && input.bytes <= limit && input.broken.Some?
    ensures Step(s, input, limit).phase == Ended
    ensures Step(s, input, limit).prompt == Some(PromptStatus(IdOf(input.caller), Submitted))
  {
    hide Request, IdOf;
    RequestTurn(s, input.caller, true, input.bytes, input.broken, limit);
  }

  /** When the actor ended, every call that reached it was cancelled or has exactly one answer. */
  lemma EndedLeavesNobodyWaiting(inputs: seq<Input>, limit: nat, caller: nat)
    requires PossibleRun(inputs, limit) && Run(inputs, limit).phase == Ended
    requires caller in Run(inputs, limit).ledger.asked
    ensures var s := Run(inputs, limit);
            && s.pending == map[]
            && (caller in s.answers <==> caller !in s.ledger.cancelled)
            && (caller in s.answers ==> |s.answers[caller]| == 1)
  {
    RuntimeInvAlways(inputs, limit);
    assert StandsOnce(Run(inputs, limit), caller);
  }

  /** The frame is a response with this caller's identifier. */
  predicate Names(message: ServerMessage, caller: nat) {
    message.ResponseMessage? && message.response.id == Some(IdOf(caller))
  }

  /** Exactly one way for each frame: the one waiting caller it names, or the subscribers if it names none. */
  lemma FrameGoesOneWay(inputs: seq<Input>, limit: nat, message: ServerMessage)
    requires PossibleRun(inputs, limit)
    ensures var s := Run(inputs, limit);
            var after := HandleFrame(s, message);
            && (forall n :: n in s.pending.Values && Names(message, n) ==>
                  && n !in s.answers && after.answers == s.answers[n := [Answered(message.response)]]
                  && after.pending.Values == s.pending.Values - {n} && after.events == s.events)
            && ((forall n :: n in s.pending.Values ==> !Names(message, n)) ==>
                  && after.answers == s.answers && after.pending == s.pending
                  && after.events == s.events + [FrameEvent(message)])
  {
    RuntimeInvAlways(inputs, limit);
    FrameRoute(Run(inputs, limit), message);
  }

  lemma FrameRoute(s: State, message: ServerMessage)
    requires CallsStand(s)
    ensures var after := HandleFrame(s, message);
            && (forall n :: n in s.pending.Values && Names(message, n) ==>
                  && n !in s.answers && after.answers == s.answers[n := [Answered(message.response)]]
                  && after.pending.Values == s.pending.Values - {n} && after.events == s.events)
            && ((forall n :: n in s.pending.Values ==> !Names(message, n)) ==>
                  && after.answers == s.answers && after.pending == s.pending
                  && after.events == s.events + [FrameEvent(message)])
  {
    hide IdOf;
    var after := HandleFrame(s, message);
    forall n | n in s.pending.Values && Names(message, n)
      ensures n !in s.answers && after.answers == s.answers[n := [Answered(message.response)]]
      ensures after.pending.Values == s.pending.Values - {n} && after.events == s.events
    {
      var id :| id in s.pending && s.pending[id] == n;
      assert id == IdOf(n) && StandsOnce(s, n);
      RemovedValue(s.pending, id);
      assert [] + [Answered(message.response)] == [Answered(message.response)];
    }
    if Expected(s, message) {
      var n := s.pending[message.response.id.value];
      assert n in s.pending.Values && Names(message, n);
    }
  }

  // ----- stdout order -----

  function FramesIn(inputs: seq<Input>): seq<ServerMessage> {
    if inputs == [] then []
    else FramesIn(inputs[..|inputs| - 1]) +
         (if inputs[|inputs| - 1].FrameInput? then [inputs[|inputs| - 1].message] else [])
  }

  function MessagesOf(handled: seq<Handled>): (messages: seq<ServerMessage>)
    ensures |messages| == |handled| && forall i :: 0 <= i < |handled| ==> messages[i] == handled[i].message
  {
    seq(|handled|, i requires 0 <= i < |handled| => handled[i].message)
  }

  /** The frames handled are the frames read, in order, all of them until the actor ends and a prefix afterwards. */
  lemma {:induction false} FramesAreHandledInOrder(inputs: seq<Input>, limit: nat)
    requires PossibleRun(inputs, limit)
    ensures MessagesOf(Run(inputs, limit).ledger.handled) <= FramesIn(inputs)
    ensures Run(inputs, limit).phase != Ended ==> MessagesOf(Run(inputs, limit).ledger.handled) == FramesIn(inputs)
  {
    if inputs == [] {
    } else {
      var last := |inputs| - 1;
      PrefixIsPossible(inputs, limit);
      FramesAreHandledInOrder(inputs[..last], limit);
      var s := Run(inputs[..last], limit);
      assert Possible(s, inputs[last]);
      StepHandles(s, inputs[last], limit);
      var after := Step(s, inputs[last], limit);
      assert MessagesOf(after.ledger.handled) ==
             MessagesOf(s.ledger.handled) + (if inputs[last].FrameInput? && s.phase != Ended then [inputs[last].message] else []);
    }
  }

  lemma StepHandles(s: State, input: Input, limit: nat)
    requires Possible(s, input)
    ensures var after := Step(s, input, limit);
            if input.FrameInput? && s.phase != Ended then
              && |after.ledger.handled| == |s.ledger.handled| + 1
              && after.ledger.handled[..|s.ledger.handled|] == s.ledger.handled
              && after.ledger.handled[|s.ledger.handled|].message == input.message
            else after.ledger.handled == s.ledger.handled
    ensures s.phase == Ended ==> Step(s, input, limit).phase == Ended
  {
    EachTurn(s, input, limit);
    hide Step;
  }

  lemma {:induction false} HandledMessage(handled: seq<Handled>, i: nat)
    requires i < |handled|
    ensures handled[i].message in MessagesOf(handled)
  {
    assert MessagesOf(handled)[i] == handled[i].message;
  }

  /**
   * A caller hears at most one reply, and a response it hears is a frame the child wrote with that
   * caller's identifier.
   */
  lemma AnswerIsTheCallersOwn(inputs: seq<Input>, limit: nat, caller: nat)
    requires PossibleRun(inputs, limit) && caller in Run(inputs, limit).answers
    ensures var replies := Run(inputs, limit).answers[caller];
            && |replies| == 1 && caller !in Run(inputs, limit).pending.Values
            && (replies[0].Answered? ==>
                  && replies[0].response.id == Some(IdOf(caller))
                  && ResponseMessage(replies[0].response) in FramesIn(inputs))
  {
    RuntimeInvAlways(inputs, limit);
    FramesAreHandledInOrder(inputs, limit);
    hide IdOf, Run, FramesIn;
    var s := Run(inputs, limit);
    assert StandsOnce(s, caller) && WellAnswered(s, caller);
    forall n | n in s.pending.Values ensures n != caller {
      var id :| id in s.pending && s.pending[id] == n;
      assert StandsOnce(s, n);
    }
    if s.answers[caller][0].Answered? {
      var i :| 0 <= i < |s.ledger.handled| && DeliveredAt(s, caller, i);
      HandledMessage(s.ledger.handled, i);
      assert FramesIn(inputs)[..|s.ledger.handled|] == MessagesOf(s.ledger.handled);
    }
  }
}
