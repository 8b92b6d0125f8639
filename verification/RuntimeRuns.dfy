/**
 * The child's actor over whole runs: what becomes of each call and how the runtime ends, each told
 * from the inputs.
 */
module RuntimeRuns {
  import opened Prelude
  import opened RuntimeActor

  // ----- what becomes of a call -----

  datatype Fate = NotAsked | Waiting | Cancelled | Heard(reply: Reply)

  /** A call that reaches the actor: answered at once if it cannot be written, waiting otherwise. */
  function FateOfRequest(bytes: nat, broken: Option<string>, limit: nat): Fate {
    if bytes > limit then Heard(Failed(FrameTooLarge(bytes, limit)))
    else if broken.Some? then Heard(Failed(Transport(broken.value)))
    else Waiting
  }

  /**
   * What became of call n, told from the inputs. It is settled once: by the write that failed, by
   * its cancellation while callers are served, by the first frame that names it, or by the end.
   */
  function FateOf(inputs: seq<Input>, limit: nat, n: nat): Fate {
    if inputs == [] then NotAsked
    else
      var before := inputs[..|inputs| - 1];
      var e := inputs[|inputs| - 1];
      var fate := FateOf(before, limit, n);
      if fate.NotAsked? then
        if e.RequestInput? && e.caller == n && Serving(before, limit) then FateOfRequest(e.bytes, e.broken, limit)
        else NotAsked
      else if fate.Waiting? then
        if e == CancelInput(n) && Serving(before, limit) then Cancelled
        else if e.FrameInput? && Names(e.message, n) then Heard(Answered(e.message.response))
        else if EndedBy(inputs, limit) then Heard(Failed(RuntimeStopped))
        else Waiting
      else fate
  }

  // ----- how the runtime ends -----

  /** The word with which an input ends the actor, if it does. */
  function LastWord(phase: Phase, readerOpen: bool, input: Input, limit: nat): Option<RuntimeEvent> {
    match input
    case RequestInput(_, _, bytes, broken) =>
      if phase == Running && bytes <= limit && broken.Some? then Some(FailedEvent(broken.value)) else None
    case SendInput(_, bytes, broken) =>
      if phase == Running && bytes <= limit && broken.Some? then Some(FailedEvent(broken.value)) else None
    case ReaderFails(reason) =>
      if phase.Draining? then Some(ExitedEvent(phase.forced))
      else if phase != Ended && readerOpen then Some(FailedEvent(reason)) else None
    case ReaderEnds => if phase.Draining? then Some(ExitedEvent(phase.forced)) else None
    case ChildExits(lost) =>
      if (phase == Running || phase == ShuttingDown) && lost.Some? then Some(FailedEvent(lost.value)) else None
    case ShutdownTimesOut(lost) =>
      if phase == ShuttingDown && lost.Some? then Some(FailedEvent(lost.value)) else None
    case _ => None
  }

  predicate EndsAt(inputs: seq<Input>, limit: nat, i: nat)
    requires i < |inputs|
  {
    LastWord(Run(inputs[..i], limit).phase, Run(inputs[..i], limit).readerOpen, inputs[i], limit).Some?
  }

  /** Some input has ended the actor. */
  predicate EndedBy(inputs: seq<Input>, limit: nat) {
    exists i: nat | i < |inputs| :: EndsAt(inputs, limit, i)
  }

  lemma LastStep(s: State, input: Input, limit: nat)
    requires s.phase != Ended
    ensures var after := Step(s, input, limit);
            var word := LastWord(s.phase, s.readerOpen, input, limit);
            && (after.phase == Ended <==> word.Some?)
            && (word.Some? ==> after.events != [] && after.events[|after.events| - 1] == word.value)
  {
    EachTurn(s, input, limit);
    hide Request, Send, Cancel, HandleFrame, Finish, Break, Told, Stop, PromptAfter, Shown;
    match input {
      case RequestInput(caller, isPrompt, bytes, broken) => RequestTurn(s, caller, isPrompt, bytes, broken, limit);
      case SendInput(sender, bytes, broken) => SendTurn(s, sender, bytes, broken, limit);
      case CancelInput(caller) => CancelTurn(s, caller);
      case FrameInput(message) => HandleTurn(s, message);
      case ReaderFails(reason) =>
        BreakTurn(s, reason);
        FinishTurn(s, FailedEvent(reason));
        if s.phase.Draining? {
          FinishTurn(s.(events := s.events + [FailedEvent(reason)]), ExitedEvent(s.phase.forced));
        }
      case ReaderEnds => if s.phase.Draining? { FinishTurn(s, ExitedEvent(s.phase.forced)); }
      case ChildExits(lost) => if lost.Some? { FinishTurn(s, FailedEvent(lost.value)); }
      case ShutdownTimesOut(lost) => if lost.Some? { FinishTurn(s.(killed := true), FailedEvent(lost.value)); }
      case ShutdownInput(_) =>
    }
  }

  /** What a turn tells the subscribers: the frame nobody waits for, what broke while stdout was drained, and the last word. */
  function Said(s: State, input: Input, limit: nat): seq<RuntimeEvent> {
    (if TakesFrame(s, input) && !Expected(s, input.message) then [FrameEvent(input.message)] else [])
    + (if s.phase.Draining? && input.ReaderFails? then [FailedEvent(input.reason)] else [])
    + (if s.phase != Ended && LastWord(s.phase, s.readerOpen, input, limit).Some?
       then [LastWord(s.phase, s.readerOpen, input, limit).value] else [])
  }

  lemma RunningSays(s: State, input: Input, limit: nat)
    requires s.phase == Running
    ensures RunningStep(s, input, limit).events == s.events + Said(s, input, limit)
  {
    hide Request, Send, Cancel, HandleFrame, Finish, Break, Told, Stop, PromptAfter, Shown;
    match input {
      case RequestInput(caller, isPrompt, bytes, broken) => RequestTurn(s, caller, isPrompt, bytes, broken, limit);
      case SendInput(sender, bytes, broken) => SendTurn(s, sender, bytes, broken, limit);
      case CancelInput(caller) => CancelTurn(s, caller);
      case FrameInput(message) => HandledSays(s, message);
      case ReaderFails(reason) => BreakTurn(s, reason);
      case ChildExits(lost) => if lost.Some? { FinishTurn(s, FailedEvent(lost.value)); }
      case _ =>
    }
  }

  lemma ShuttingDownSays(s: State, input: Input, limit: nat)
    requires s.phase == ShuttingDown
    ensures ShutdownStep(s, input).events == s.events + Said(s, input, limit)
  {
    hide HandleFrame, Finish, Stop, PromptAfter;
    match input {
      case FrameInput(message) => HandledSays(s, message);
      case ReaderFails(reason) => FinishTurn(s, FailedEvent(reason));
      case ChildExits(lost) => if lost.Some? { FinishTurn(s, FailedEvent(lost.value)); }
      case ShutdownTimesOut(lost) => if lost.Some? { FinishTurn(s.(killed := true), FailedEvent(lost.value)); }
      case _ =>
    }
  }

  lemma DrainingSays(s: State, input: Input, limit: nat)
    requires s.phase.Draining?
    ensures DrainStep(s, s.phase.forced, input).events == s.events + Said(s, input, limit)
  {
    hide HandleFrame, Finish, Stop, PromptAfter;
    match input {
      case FrameInput(message) => HandledSays(s, message);
      case ReaderFails(reason) =>
        FinishTurn(s.(events := s.events + [FailedEvent(reason)]), ExitedEvent(s.phase.forced));
      case ReaderEnds => FinishTurn(s, ExitedEvent(s.phase.forced));
      case _ =>
    }
  }

  /** Every turn of every loop publishes exactly that, behind what was published before. */
  lemma TurnSays(s: State, input: Input, limit: nat)
    ensures Step(s, input, limit).events == s.events + Said(s, input, limit)
  {
    match s.phase {
      case Running => hide RunningStep, Said; RunningSays(s, input, limit);
      case ShuttingDown => hide ShutdownStep, Said; ShuttingDownSays(s, input, limit);
      case Draining(_) => hide DrainStep, Said; DrainingSays(s, input, limit);
      case Ended => NobodyEndsTwice(s, input, limit);
    }
  }

  lemma HandledSays(s: State, message: ServerMessage)
    ensures HandleFrame(s, message).events
            == s.events + (if Expected(s, message) then [] else [FrameEvent(message)])
  {
    hide PromptAfter, Appended;
  }

  lemma EndedByLonger(inputs: seq<Input>, limit: nat)
    requires inputs != []
    ensures var last := |inputs| - 1;
            EndedBy(inputs, limit) <==> EndedBy(inputs[..last], limit) || EndsAt(inputs, limit, last)
  {
    hide Run, LastWord;
    var before := inputs[..|inputs| - 1];
    forall i: nat | i < |before| ensures EndsAt(before, limit, i) <==> EndsAt(inputs, limit, i) {
      assert before[..i] == inputs[..i];
    }
    if EndedBy(before, limit) {
      var i: nat :| i < |before| && EndsAt(before, limit, i);
      assert EndsAt(inputs, limit, i);
    }
  }

  /** The actor has ended exactly when some input ended it. */
  lemma {:induction false} EndedExactlyWhen(inputs: seq<Input>, limit: nat)
    ensures Run(inputs, limit).phase == Ended <==> EndedBy(inputs, limit)
  {
    if inputs != [] {
      hide Step, LastWord, EndedBy;
      var before := inputs[..|inputs| - 1];
      EndedExactlyWhen(before, limit);
      EndedByLonger(inputs, limit);
      EndsAtLast(inputs, limit);
      if Run(before, limit).phase == Ended {
        NobodyEndsTwice(Run(before, limit), inputs[|inputs| - 1], limit);
      } else {
        LastStep(Run(before, limit), inputs[|inputs| - 1], limit);
      }
    }
  }

  lemma EndsAtLast(inputs: seq<Input>, limit: nat)
    requires inputs != []
    ensures var s := Run(inputs[..|inputs| - 1], limit);
            EndsAt(inputs, limit, |inputs| - 1)
            <==> LastWord(s.phase, s.readerOpen, inputs[|inputs| - 1], limit).Some?
  {
    hide Run;
  }

  /**
   * The input that ended the actor says why in the last event, whatever comes later: the reason of
   * what failed, or that the child exited, by force exactly if the shutdown timed out.
   */
  lemma {:induction false} EndSaysWhy(inputs: seq<Input>, limit: nat, i: nat)
    requires i < |inputs| && EndsAt(inputs, limit, i)
    ensures var s := Run(inputs[..i], limit);
            var events := Run(inputs, limit).events;
            && Run(inputs, limit).phase == Ended && events != []
            && events[|events| - 1] == LastWord(s.phase, s.readerOpen, inputs[i], limit).value
    decreases |inputs|
  {
    hide Step, LastWord, Run;
    var last := |inputs| - 1;
    RunLast(inputs, limit);
    if i < last {
      assert inputs[..last][..i] == inputs[..i];
      EndSaysWhy(inputs[..last], limit, i);
      EachPhase(Run(inputs[..last], limit), inputs[last], limit);
    } else {
      EndsWhileOpen(Run(inputs[..i], limit), inputs[i], limit);
      LastStep(Run(inputs[..i], limit), inputs[i], limit);
    }
  }

  lemma EndsWhileOpen(s: State, input: Input, limit: nat)
    requires LastWord(s.phase, s.readerOpen, input, limit).Some?
    ensures s.phase != Ended
  {
  }

  lemma NobodyEndsTwice(s: State, input: Input, limit: nat)
    requires s.phase == Ended
    ensures LastWord(s.phase, s.readerOpen, input, limit).None? && Step(s, input, limit) == s
  {
  }

  /** A shutdown that timed out with the child still there. */
  predicate TimedOutAt(inputs: seq<Input>, limit: nat, i: nat)
    requires i < |inputs|
  {
    inputs[i] == ShutdownTimesOut(None) && Run(inputs[..i], limit).phase == ShuttingDown
  }

  lemma ForcedStep(s: State, input: Input, limit: nat)
    ensures var after := Step(s, input, limit);
            after.phase.Draining? ==>
              if s.phase.Draining? then after.phase == s.phase
              else after.phase == Draining(s.phase == ShuttingDown && input == ShutdownTimesOut(None))
    ensures var after := Step(s, input, limit);
            s.phase.Draining? ==> after.phase == s.phase || after.phase == Ended
    ensures Step(s, input, limit).phase == ShuttingDown ==> s.phase == Running || s.phase == ShuttingDown
    ensures s.phase == ShuttingDown && input == ShutdownTimesOut(None) ==> Step(s, input, limit).phase == Draining(true)
  {
    EachTurn(s, input, limit);
    hide Request, Send, Cancel, HandleFrame, Finish, Break, Told, Stop, PromptAfter, Shown;
    match input {
      case RequestInput(caller, isPrompt, bytes, broken) => RequestTurn(s, caller, isPrompt, bytes, broken, limit);
      case SendInput(sender, bytes, broken) => SendTurn(s, sender, bytes, broken, limit);
      case CancelInput(caller) => CancelTurn(s, caller);
      case FrameInput(message) => HandleTurn(s, message);
      case ReaderFails(reason) =>
        BreakTurn(s, reason);
        FinishTurn(s, FailedEvent(reason));
        if s.phase.Draining? {
          FinishTurn(s.(events := s.events + [FailedEvent(reason)]), ExitedEvent(s.phase.forced));
        }
      case ReaderEnds => if s.phase.Draining? { FinishTurn(s, ExitedEvent(s.phase.forced)); }
      case ChildExits(lost) => if lost.Some? { FinishTurn(s, FailedEvent(lost.value)); }
      case ShutdownTimesOut(lost) => if lost.Some? { FinishTurn(s.(killed := true), FailedEvent(lost.value)); }
      case ShutdownInput(_) =>
    }
  }

  predicate TimedOut(inputs: seq<Input>, limit: nat) {
    exists i: nat | i < |inputs| :: TimedOutAt(inputs, limit, i)
  }

  lemma TimedOutLonger(inputs: seq<Input>, limit: nat)
    requires inputs != []
    ensures var before := inputs[..|inputs| - 1];
            TimedOut(inputs, limit) <==>
              TimedOut(before, limit)
              || (inputs[|inputs| - 1] == ShutdownTimesOut(None) && Run(before, limit).phase == ShuttingDown)
  {
    hide Run;
    var before := inputs[..|inputs| - 1];
    forall i: nat | i < |before| ensures TimedOutAt(before, limit, i) <==> TimedOutAt(inputs, limit, i) {
      assert before[..i] == inputs[..i];
    }
    if TimedOut(before, limit) {
      var i: nat :| i < |before| && TimedOutAt(before, limit, i);
      assert TimedOutAt(inputs, limit, i);
    }
    assert TimedOutAt(inputs, limit, |before|)
      <==> inputs[|before|] == ShutdownTimesOut(None) && Run(before, limit).phase == ShuttingDown;
  }

  /** While stdout is drained, the exit to come is marked as forced exactly if the shutdown timed out. */
  lemma {:induction false} ForcedExactlyWhenTimedOut(inputs: seq<Input>, limit: nat)
    ensures Run(inputs, limit).phase.Draining? ==> (Run(inputs, limit).phase.forced <==> TimedOut(inputs, limit))
    ensures Run(inputs, limit).phase == Running || Run(inputs, limit).phase == ShuttingDown ==> !TimedOut(inputs, limit)
  {
    if inputs != [] {
      hide Step, TimedOut;
      var before := inputs[..|inputs| - 1];
      ForcedExactlyWhenTimedOut(before, limit);
      ForcedStep(Run(before, limit), inputs[|inputs| - 1], limit);
      EachPhase(Run(before, limit), inputs[|inputs| - 1], limit);
      TimedOutLonger(inputs, limit);
    }
  }

  lemma EachPhase(s: State, input: Input, limit: nat)
    ensures Step(s, input, limit).phase == Running ==> s.phase == Running
    ensures s.phase == Ended ==> Step(s, input, limit) == s
  {
    EachTurn(s, input, limit);
    hide Step;
  }

  // ----- each call in the actor -----

  /** Where the actor has call n. */
  predicate Stands(s: State, n: nat, fate: Fate) {
    && (n in s.ledger.asked <==> !fate.NotAsked?)
    && (n in s.ledger.cancelled <==> fate.Cancelled?)
    && (IdOf(n) in s.pending && s.pending[IdOf(n)] == n <==> fate.Waiting?)
    && (n in s.answers <==> fate.Heard?)
    && (fate.Heard? ==> s.answers[n] == [fate.reply])
  }

  function AtTheEnd(fate: Fate): Fate {
    if fate.Waiting? then Heard(Failed(RuntimeStopped)) else fate
  }

  lemma FinishStands(s: State, event: RuntimeEvent, n: nat, fate: Fate)
    requires CallsStand(s) && Stands(s, n, fate)
    ensures Stands(Finish(s, event), n, AtTheEnd(fate))
  {
    hide IdOf, Stop;
    var after := Finish(s, event);
    ValuesAreFiled(s.pending, n);
    if fate.Waiting? {
      assert after.answers[n] == [] + [Failed(RuntimeStopped)];
    } else if fate.Heard? {
      assert after.answers[n] == s.answers[n] + [];
    }
  }

  lemma ValuesAreFiled(pending: map<string, nat>, n: nat)
    requires Named(pending)
    ensures n in pending.Values <==> IdOf(n) in pending && pending[IdOf(n)] == n
  {
    hide IdOf;
  }

  lemma BreakStands(s: State, reason: string, n: nat, fate: Fate)
    requires CallsStand(s) && Stands(s, n, fate)
    ensures Stands(Break(s, reason), n, AtTheEnd(fate))
  {
    hide IdOf, Finish;
    CallsKeep(s, s.(killed := true));
    FinishStands(s.(killed := true), FailedEvent(reason), n, fate);
  }

  /** A call asked for and answered at once. */
  lemma RefusedStands(s: State, m: nat, error: RequestError, n: nat, fate: Fate)
    requires CallsStand(s) && m !in s.ledger.asked && Stands(s, n, fate)
    ensures Stands(Answer(s.(ledger := s.ledger.(asked := s.ledger.asked + {m})), m, Failed(error)), n,
              if m == n then Heard(Failed(error)) else fate)
  {
    hide IdOf, StandsOnce;
    assert [] + [Failed(error)] == [Failed(error)];
  }

  lemma RegisteredStands(s: State, m: nat, n: nat, fate: Fate)
    requires CallsStand(s) && m <= U64_MAX && m !in s.ledger.asked && n <= U64_MAX && Stands(s, n, fate)
    ensures Stands(s.(pending := s.pending[IdOf(m) := m], ledger := s.ledger.(asked := s.ledger.asked + {m})), n,
              if m == n then Waiting else fate)
  {
    if m != n && IdOf(m) == IdOf(n) {
      IdsAreDistinct(m, n);
    }
    hide IdOf, StandsOnce;
  }

  lemma RequestStands(s: State, m: nat, isPrompt: bool, bytes: nat, broken: Option<string>, limit: nat, n: nat, fate: Fate)
    requires CallsStand(s) && m <= U64_MAX && m !in s.ledger.asked && n <= U64_MAX
    requires Stands(s, n, fate)
    ensures Stands(Request(s, m, isPrompt, bytes, broken, limit), n,
              if m == n then FateOfRequest(bytes, broken, limit)
              else if bytes <= limit && broken.Some? then AtTheEnd(fate) else fate)
  {
    var shown := Shown(s, m, isPrompt);
    SameCalls(s, shown, n, fate);
    hide CallsStand, Break, FailPrompt, Stands, Answer, IdOf;
    var asked := shown.(ledger := s.ledger.(asked := s.ledger.asked + {m}));
    if bytes > limit {
      RefusedStands(shown, m, FrameTooLarge(bytes, limit), n, fate);
      var told := Answer(asked, m, Failed(FrameTooLarge(bytes, limit)));
      PromptAside(told, told.(prompt := FailPrompt(shown.prompt, IdOf(m), TooLarge(bytes, limit))), n);
    } else if broken.Some? {
      RefusedStands(shown, m, Transport(broken.value), n, fate);
      AnswerKeepsCalls(shown, m, Transport(broken.value));
      BreakStands(Answer(asked, m, Failed(Transport(broken.value))), broken.value, n,
        if m == n then Heard(Failed(Transport(broken.value))) else fate);
    } else {
      RegisteredStands(shown, m, n, fate);
    }
  }

  lemma PromptAside(s: State, after: State, n: nat)
    requires after == s.(prompt := after.prompt)
    ensures forall fate :: Stands(s, n, fate) ==> Stands(after, n, fate)
  {
    hide IdOf;
  }

  lemma SendStands(s: State, sender: nat, bytes: nat, broken: Option<string>, limit: nat, n: nat, fate: Fate)
    requires CallsStand(s) && Stands(s, n, fate)
    ensures Stands(Send(s, sender, bytes, broken, limit), n,
              if bytes <= limit && broken.Some? then AtTheEnd(fate) else fate)
  {
    hide IdOf, Break, Appended, CallsStand;
    if bytes <= limit && broken.Some? {
      var told := Told(s, sender, NotWritten(Transport(broken.value)));
      CallsKeep(s, told);
      BreakStands(told, broken.value, n, fate);
    }
  }

  lemma CancelStands(s: State, m: nat, n: nat, fate: Fate)
    requires CallsStand(s) && Stands(s, n, fate) && m <= U64_MAX && n <= U64_MAX
    ensures Stands(Cancel(s, m), n, if m == n && fate.Waiting? then Cancelled else fate)
  {
    if m != n && IdOf(m) == IdOf(n) {
      IdsAreDistinct(m, n);
    }
    if IdOf(m) in s.pending {
      IdsAreDistinct(m, s.pending[IdOf(m)]);
    }
    hide IdOf;
  }

  lemma HandleStands(s: State, message: ServerMessage, n: nat, fate: Fate)
    requires CallsStand(s) && Stands(s, n, fate) && n <= U64_MAX
    ensures Stands(HandleFrame(s, message), n,
              if fate.Waiting? && Names(message, n) then Heard(Answered(message.response)) else fate)
  {
    hide PromptAfter;
    if Expected(s, message) {
      var id := message.response.id.value;
      var m := s.pending[id];
      assert IdOf(m) == id;
      if IdOf(n) == id {
        IdsAreDistinct(n, m);
      }
      hide IdOf;
      assert StandsOnce(s, m);
      assert [] + [Answered(message.response)] == [Answered(message.response)];
    }
  }

  /** What one turn makes of call n. */
  function NextFate(fate: Fate, s: State, input: Input, limit: nat, n: nat): Fate {
    if fate.NotAsked? then
      if input.RequestInput? && input.caller == n && s.phase == Running
      then FateOfRequest(input.bytes, input.broken, limit) else NotAsked
    else if fate.Waiting? then
      if input == CancelInput(n) && s.phase == Running then Cancelled
      else if input.FrameInput? && Names(input.message, n) then Heard(Answered(input.message.response))
      else if LastWord(s.phase, s.readerOpen, input, limit).Some? then Heard(Failed(RuntimeStopped))
      else Waiting
    else fate
  }

  lemma StepStands(s: State, input: Input, limit: nat, n: nat, fate: Fate)
    requires RuntimeInv(s) && Possible(s, input) && n <= U64_MAX && Stands(s, n, fate)
    ensures Stands(Step(s, input, limit), n, NextFate(fate, s, input, limit, n))
  {
    if s.phase == Ended {
      NotWaitingAtTheEnd(s, n, fate);
      EndedStands(s, input, limit, n, fate);
    } else if input.RequestInput? || input.SendInput? || input.CancelInput? || input.FrameInput? {
      hide Step, NextFate, Stands, RuntimeInv;
      CallerStands(s, input, limit, n, fate);
    } else {
      hide Step, NextFate, Stands, RuntimeInv;
      ChildStands(s, input, limit, n, fate);
    }
  }

  lemma NotWaitingAtTheEnd(s: State, n: nat, fate: Fate)
    requires RuntimeInv(s) && s.phase == Ended && Stands(s, n, fate)
    ensures !fate.Waiting?
  {
    hide IdOf;
  }

  lemma EndedStands(s: State, input: Input, limit: nat, n: nat, fate: Fate)
    requires s.phase == Ended && Stands(s, n, fate) && !fate.Waiting?
    ensures Stands(Step(s, input, limit), n, NextFate(fate, s, input, limit, n))
  {
    hide Stands, Names;
  }

  lemma CallerStands(s: State, input: Input, limit: nat, n: nat, fate: Fate)
    requires RuntimeInv(s) && Possible(s, input) && n <= U64_MAX && Stands(s, n, fate) && s.phase != Ended
    requires input.RequestInput? || input.SendInput? || input.CancelInput? || input.FrameInput?
    ensures Stands(Step(s, input, limit), n, NextFate(fate, s, input, limit, n))
  {
    hide CallsStand, FramesStand, IdOf, Request, Send, Cancel, HandleFrame, Stands, Names;
    match input {
      case RequestInput(m, isPrompt, bytes, broken) =>
        if s.phase == Running {
          RequestStands(s, m, isPrompt, bytes, broken, limit, n, fate);
          AskedOnce(s, n, fate);
        }
      case SendInput(sender, bytes, broken) =>
        if s.phase == Running {
          SendStands(s, sender, bytes, broken, limit, n, fate);
        }
      case CancelInput(m) =>
        if s.phase == Running {
          CancelStands(s, m, n, fate);
        }
      case FrameInput(message) => HandleStands(s, message, n, fate);
    }
  }

  lemma AskedOnce(s: State, n: nat, fate: Fate)
    requires Stands(s, n, fate)
    ensures n !in s.ledger.asked <==> fate.NotAsked?
  {
  }

  lemma SameCalls(s: State, after: State, n: nat, fate: Fate)
    requires CallsStand(s) && Stands(s, n, fate)
    requires after.pending == s.pending && after.answers == s.answers && after.ledger == s.ledger
    ensures CallsStand(after) && Stands(after, n, fate)
  {
    CallsKeep(s, after);
    hide IdOf;
  }

  lemma ChildStands(s: State, input: Input, limit: nat, n: nat, fate: Fate)
    requires RuntimeInv(s) && Stands(s, n, fate) && s.phase != Ended
    requires !(input.RequestInput? || input.SendInput? || input.CancelInput? || input.FrameInput?)
    ensures Stands(Step(s, input, limit), n, NextFate(fate, s, input, limit, n))
  {
    hide CallsStand, FramesStand, IdOf, Finish, Break, Stands;
    match input {
      case ReaderFails(reason) =>
        BreakStands(s, reason, n, fate);
        FinishStands(s, FailedEvent(reason), n, fate);
        if s.phase.Draining? {
          var noted := s.(events := s.events + [FailedEvent(reason)]);
          SameCalls(s, noted, n, fate);
          FinishStands(noted, ExitedEvent(s.phase.forced), n, fate);
        }
      case ReaderEnds =>
        SameCalls(s, s.(readerOpen := false), n, fate);
        if s.phase.Draining? {
          FinishStands(s, ExitedEvent(s.phase.forced), n, fate);
        }
      case ShutdownInput(stopper) => SameCalls(s, s.(phase := ShuttingDown, stopper := stopper), n, fate);
      case ChildExits(lost) =>
        SameCalls(s, s.(phase := Draining(false)), n, fate);
        if lost.Some? {
          FinishStands(s, FailedEvent(lost.value), n, fate);
        }
      case ShutdownTimesOut(lost) =>
        var gone := s.(killed := true);
        SameCalls(s, gone, n, fate);
        SameCalls(s, gone.(phase := Draining(true)), n, fate);
        if lost.Some? {
          FinishStands(gone, FailedEvent(lost.value), n, fate);
        }
    }
  }

  lemma NextFateIs(inputs: seq<Input>, limit: nat, n: nat)
    requires inputs != []
    requires var s := Run(inputs[..|inputs| - 1], limit);
             s.phase == Ended ==> !FateOf(inputs[..|inputs| - 1], limit, n).Waiting?
    ensures var before := inputs[..|inputs| - 1];
            FateOf(inputs, limit, n)
            == NextFate(FateOf(before, limit, n), Run(before, limit), inputs[|inputs| - 1], limit, n)
  {
    hide Run, Serving, LastWord, Names, EndsAt, EndedBy;
    var last := |inputs| - 1;
    ServingExactlyWhenRunning(inputs[..last], limit);
    EndedExactlyWhen(inputs[..last], limit);
    EndedByLonger(inputs, limit);
    EndsAtLast(inputs, limit);
  }

  /**
   * Every call ends as its inputs say, over any interleaving of all callers, frames and ways to stop:
   * it waits, was cancelled, or heard one reply, and that reply is the response that named it first,
   * the failure of its own write, or the end of the runtime.
   */
  lemma {:induction false} EveryCallMeetsItsFate(inputs: seq<Input>, limit: nat, n: nat)
    requires PossibleRun(inputs, limit) && n <= U64_MAX
    ensures Stands(Run(inputs, limit), n, FateOf(inputs, limit, n))
  {
    if inputs == [] {
      hide IdOf;
    } else {
      hide Step, Stands, RuntimeInv, NextFate, FateOf, Possible;
      var last := |inputs| - 1;
      PrefixIsPossible(inputs, limit);
      EveryCallMeetsItsFate(inputs[..last], limit, n);
      RuntimeInvAlways(inputs[..last], limit);
      assert Possible(Run(inputs[..last], limit), inputs[last]);
      if Run(inputs[..last], limit).phase == Ended {
        NotWaitingAtTheEnd(Run(inputs[..last], limit), n, FateOf(inputs[..last], limit, n));
      }
      NextFateIs(inputs, limit, n);
      StepStands(Run(inputs[..last], limit), inputs[last], limit, n, FateOf(inputs[..last], limit, n));
    }
  }

  // ----- cancelled calls -----

  predicate IsWaiting(s: State, n: nat) {
    IdOf(n) in s.pending && s.pending[IdOf(n)] == n
  }

  /** The i-th input cancels call n while it waits and callers are served. */
  predicate CancelsAt(inputs: seq<Input>, limit: nat, i: nat, n: nat)
    requires i < |inputs|
  {
    inputs[i] == CancelInput(n) && Serving(inputs[..i], limit) && IsWaiting(Run(inputs[..i], limit), n)
  }

  lemma {:induction false} SettledFateStays(inputs: seq<Input>, limit: nat, i: nat, n: nat)
    requires i <= |inputs| && (FateOf(inputs[..i], limit, n).Cancelled? || FateOf(inputs[..i], limit, n).Heard?)
    ensures FateOf(inputs, limit, n) == FateOf(inputs[..i], limit, n)
    decreases |inputs|
  {
    hide Serving, Names, EndedBy, FateOfRequest;
    if i == |inputs| {
      assert inputs[..i] == inputs;
    } else {
      var last := |inputs| - 1;
      assert inputs[..last][..i] == inputs[..i];
      SettledFateStays(inputs[..last], limit, i, n);
    }
  }

  predicate CancelledBy(inputs: seq<Input>, limit: nat, n: nat) {
    exists i: nat | i < |inputs| :: CancelsAt(inputs, limit, i, n)
  }

  lemma CancelledLonger(inputs: seq<Input>, limit: nat, n: nat)
    requires inputs != []
    ensures var before := inputs[..|inputs| - 1];
            CancelledBy(inputs, limit, n) <==>
              CancelledBy(before, limit, n)
              || (inputs[|inputs| - 1] == CancelInput(n) && Serving(before, limit) && IsWaiting(Run(before, limit), n))
  {
    hide Serving, Run, IsWaiting;
    var before := inputs[..|inputs| - 1];
    forall i: nat | i < |before| ensures CancelsAt(before, limit, i, n) <==> CancelsAt(inputs, limit, i, n) {
      assert before[..i] == inputs[..i];
    }
    if CancelledBy(before, limit, n) {
      var i: nat :| i < |before| && CancelsAt(before, limit, i, n);
      assert CancelsAt(inputs, limit, i, n);
    }
    assert CancelsAt(inputs, limit, |before|, n)
      <==> inputs[|before|] == CancelInput(n) && Serving(before, limit) && IsWaiting(Run(before, limit), n);
  }

  /** A call is cancelled exactly by a cancellation that finds it waiting while callers are served. */
  lemma {:induction false} CancelledExactlyWhen(inputs: seq<Input>, limit: nat, n: nat)
    requires PossibleRun(inputs, limit) && n <= U64_MAX
    ensures n in Run(inputs, limit).ledger.cancelled <==> CancelledBy(inputs, limit, n)
    ensures FateOf(inputs, limit, n).Cancelled? <==> CancelledBy(inputs, limit, n)
  {
    EveryCallMeetsItsFate(inputs, limit, n);
    if inputs != [] {
      hide Serving, Names, EndedBy, FateOfRequest, Run, IsWaiting, CancelledBy;
      PrefixIsPossible(inputs, limit);
      hide PossibleRun;
      var before := inputs[..|inputs| - 1];
      CancelledExactlyWhen(before, limit, n);
      EveryCallMeetsItsFate(before, limit, n);
      WaitingIs(Run(before, limit), n, FateOf(before, limit, n));
      CancelledIs(Run(inputs, limit), n, FateOf(inputs, limit, n));
      hide Stands;
      CancelledLonger(inputs, limit, n);
    }
  }

  lemma CancelledIs(s: State, n: nat, fate: Fate)
    requires Stands(s, n, fate)
    ensures n in s.ledger.cancelled <==> fate.Cancelled?
  {
    hide IdOf;
  }

  lemma WaitingIs(s: State, n: nat, fate: Fate)
    requires Stands(s, n, fate)
    ensures IsWaiting(s, n) <==> fate.Waiting?
  {
    hide IdOf;
  }

  /**
   * After a cancellation that found the call waiting, its caller hears nothing, ever; and a frame that
   * names it is published to the subscribers.
   */
  lemma CancelledHearsNothing(inputs: seq<Input>, limit: nat, i: nat, n: nat)
    requires PossibleRun(inputs, limit) && n <= U64_MAX
    requires i < |inputs| && CancelsAt(inputs, limit, i, n)
    ensures var s := Run(inputs, limit);
            && n in s.ledger.cancelled && n !in s.answers && !IsWaiting(s, n)
            && forall message :: Names(message, n) ==>
                 HandleFrame(s, message).events == s.events + [FrameEvent(message)]
                 && HandleFrame(s, message).answers == s.answers
  {
    CancelledExactlyWhen(inputs, limit, n);
    EveryCallMeetsItsFate(inputs, limit, n);
    RuntimeInvAlways(inputs, limit);
    hide CancelsAt, FateOf;
    var s := Run(inputs, limit);
    forall message | Names(message, n)
      ensures HandleFrame(s, message).events == s.events + [FrameEvent(message)]
      ensures HandleFrame(s, message).answers == s.answers
    {
      NamesNobody(s, message, n);
      FrameRoute(s, message);
    }
  }

  lemma NamesNobody(s: State, message: ServerMessage, n: nat)
    requires RuntimeInv(s) && n <= U64_MAX && !IsWaiting(s, n) && Names(message, n)
    ensures forall m :: m in s.pending.Values ==> !Names(message, m)
  {
    hide FramesStand, StandsOnce;
    forall m | m in s.pending.Values ensures !Names(message, m) {
      var id :| id in s.pending && s.pending[id] == m;
      assert m in s.ledger.asked && IdOf(m) == id;
      if Names(message, m) {
        IdsAreDistinct(m, n);
      }
    }
  }
}
