/** What the runtime shows of its latest prompt, told from the frames the child wrote since. */
module RuntimePrompts {
  import opened Prelude
  import opened RuntimeActor
  import opened RuntimeRuns

  // ----- what a list of frames makes of a prompt -----

  /** The frame settles by itself where this prompt is. */
  predicate Decides(message: ServerMessage, id: string) {
    match message
    case ResponseMessage(Response(named, body)) =>
      named == Some(id) && (body.ErrorBody? || body == PromptBody(Some(false)))
    case PromptResult(named, _) => named == Some(id)
    case _ => false
  }

  function Decision(message: ServerMessage): PromptPhase {
    match message
    case ResponseMessage(Response(_, ErrorBody(error))) => PromptFailed(Reported(error))
    case PromptResult(_, true) => InProgress
    case _ => Completed(Local)
  }

  /** The agent went to work: the session says so, or the acknowledgement of this prompt does. */
  predicate Invokes(message: ServerMessage, id: string) {
    message == AgentStart || message == ResponseMessage(Response(Some(id), PromptBody(Some(true))))
  }

  /** Where a prompt is after frames none of which decides it. */
  function Carried(phase: PromptPhase, frames: seq<ServerMessage>, id: string): PromptPhase {
    if phase.Finished() then phase
    else if AgentEnd in frames then Completed(Agent)
    else if phase == Submitted && exists message :: message in frames && Invokes(message, id) then InProgress
    else phase
  }

  predicate NoneDecides(frames: seq<ServerMessage>, id: string) {
    forall k :: 0 <= k < |frames| ==> !Decides(frames[k], id)
  }

  /** Where a prompt is after these frames: the last one that decides it counts, and what came after. */
  ghost predicate Reaches(start: PromptPhase, frames: seq<ServerMessage>, id: string, phase: PromptPhase) {
    && (NoneDecides(frames, id) ==> phase == Carried(start, frames, id))
    && forall d :: 0 <= d < |frames| && Decides(frames[d], id) && NoneDecides(frames[d + 1..], id) ==>
         phase == Carried(Decision(frames[d]), frames[d + 1..], id)
  }

  lemma NoneDecidesLonger(frames: seq<ServerMessage>, message: ServerMessage, id: string)
    ensures NoneDecides(frames + [message], id) <==> NoneDecides(frames, id) && !Decides(message, id)
  {
    hide Decides;
    var all := frames + [message];
    assert all[|frames|] == message;
    assert forall k :: 0 <= k < |frames| ==> all[k] == frames[k];
  }

  /** A frame that decides moves the prompt there, wherever it was; any other moves it at most along its way. */
  lemma NextPhaseDecides(status: PromptStatus, message: ServerMessage)
    requires Decides(message, status.requestId)
    ensures PromptAfter(Some(status), message) == Some(status.(phase := Decision(message)))
  {
  }

  lemma NextPhaseCarries(start: PromptPhase, frames: seq<ServerMessage>, id: string, message: ServerMessage)
    requires !Decides(message, id)
    ensures PromptAfter(Some(PromptStatus(id, Carried(start, frames, id))), message)
            == Some(PromptStatus(id, Carried(start, frames + [message], id)))
  {
    var all := frames + [message];
    assert AgentEnd in all <==> AgentEnd in frames || message == AgentEnd;
    assert (exists m :: m in all && Invokes(m, id)) <==> (exists m :: m in frames && Invokes(m, id)) || Invokes(message, id) by {
      if Invokes(message, id) {
        assert message in all;
      }
      if m :| m in frames && Invokes(m, id) {
        assert m in all;
      }
    }
  }

  /** The last frame that decides, if one does. */
  lemma {:induction false} LastDecider(frames: seq<ServerMessage>, id: string)
    ensures NoneDecides(frames, id)
            || exists d :: 0 <= d < |frames| && Decides(frames[d], id) && NoneDecides(frames[d + 1..], id)
    decreases |frames|
  {
    hide Decides;
    if frames != [] {
      var last := |frames| - 1;
      if Decides(frames[last], id) {
        assert NoneDecides(frames[last + 1..], id);
      } else {
        LastDecider(frames[..last], id);
        assert frames[..last] + [frames[last]] == frames;
        NoneDecidesLonger(frames[..last], frames[last], id);
        if !NoneDecides(frames[..last], id) {
          var d :| 0 <= d < last && Decides(frames[..last][d], id) && NoneDecides(frames[..last][d + 1..], id);
          assert frames[d + 1..] == frames[..last][d + 1..] + [frames[last]];
          NoneDecidesLonger(frames[..last][d + 1..], frames[last], id);
          assert Decides(frames[d], id);
        }
      }
    }
  }

  lemma DecidesInSuffix(frames: seq<ServerMessage>, e: nat, d: nat, id: string)
    requires e < d < |frames| && Decides(frames[d], id)
    ensures !NoneDecides(frames[e + 1..], id)
  {
    hide Decides;
    assert frames[e + 1..][d - e - 1] == frames[d];
  }

  lemma OneLastDecider(frames: seq<ServerMessage>, id: string, d: nat)
    requires d < |frames| && Decides(frames[d], id) && NoneDecides(frames[d + 1..], id)
    ensures !NoneDecides(frames, id)
    ensures forall e :: 0 <= e < |frames| && Decides(frames[e], id) && NoneDecides(frames[e + 1..], id) ==> e == d
  {
    hide Decides;
    forall e | 0 <= e < |frames| && Decides(frames[e], id) && NoneDecides(frames[e + 1..], id) ensures e == d {
      if e < d {
        DecidesInSuffix(frames, e, d, id);
      } else if d < e {
        DecidesInSuffix(frames, d, e, id);
      }
    }
  }

  lemma UndecidedReaches(start: PromptPhase, frames: seq<ServerMessage>, id: string, phase: PromptPhase)
    requires NoneDecides(frames, id)
    ensures Reaches(start, frames, id, phase) <==> phase == Carried(start, frames, id)
  {
    hide Decides, Decision, Carried;
  }

  lemma DecidedReaches(start: PromptPhase, frames: seq<ServerMessage>, id: string, phase: PromptPhase, d: nat)
    requires d < |frames| && Decides(frames[d], id) && NoneDecides(frames[d + 1..], id)
    ensures Reaches(start, frames, id, phase) <==> phase == Carried(Decision(frames[d]), frames[d + 1..], id)
  {
    OneLastDecider(frames, id, d);
    hide Decides, NoneDecides, Decision, Carried;
  }

  lemma DecidingFrame(start: PromptPhase, frames: seq<ServerMessage>, id: string, message: ServerMessage)
    requires Decides(message, id)
    ensures Reaches(start, frames + [message], id, Decision(message))
  {
    var all := frames + [message];
    assert all[|frames|] == message && all[|frames| + 1..] == [];
    CarriedNowhere(Decision(message), id);
    DecidedReaches(start, all, id, Decision(message), |frames|);
    hide Decides, Decision, Carried, Reaches;
  }

  lemma CarriedNowhere(phase: PromptPhase, id: string)
    ensures Carried(phase, [], id) == phase && NoneDecides([], id)
  {
  }

  lemma CarryingUndecided(start: PromptPhase, frames: seq<ServerMessage>, id: string, message: ServerMessage)
    requires NoneDecides(frames, id) && !Decides(message, id)
    ensures Reaches(start, frames + [message], id, Carried(start, frames + [message], id))
  {
    hide Decides, Carried, Reaches;
    NoneDecidesLonger(frames, message, id);
    hide NoneDecides;
    UndecidedReaches(start, frames + [message], id, Carried(start, frames + [message], id));
  }

  lemma CarryingDecided(start: PromptPhase, frames: seq<ServerMessage>, id: string, message: ServerMessage, d: nat)
    requires d < |frames| && Decides(frames[d], id) && NoneDecides(frames[d + 1..], id) && !Decides(message, id)
    ensures Reaches(start, frames + [message], id, Carried(Decision(frames[d]), frames[d + 1..] + [message], id))
  {
    hide Decides, Decision, Carried, Reaches;
    var all := frames + [message];
    NoneDecidesLonger(frames[d + 1..], message, id);
    hide NoneDecides;
    assert all[d] == frames[d] && all[d + 1..] == frames[d + 1..] + [message];
    DecidedReaches(start, all, id, Carried(Decision(frames[d]), frames[d + 1..] + [message], id), d);
  }

  /** One more frame puts the prompt where the longer list says. */
  lemma OneMoreFrame(start: PromptPhase, frames: seq<ServerMessage>, id: string, phase: PromptPhase, message: ServerMessage)
    requires Reaches(start, frames, id, phase)
    ensures var after := PromptAfter(Some(PromptStatus(id, phase)), message);
            after.Some? && after.value.requestId == id && Reaches(start, frames + [message], id, after.value.phase)
  {
    hide Decision, Carried, PromptAfter, Decides, Reaches, NoneDecides;
    if Decides(message, id) {
      NextPhaseDecides(PromptStatus(id, phase), message);
      DecidingFrame(start, frames, id, message);
    } else if NoneDecides(frames, id) {
      UndecidedReaches(start, frames, id, phase);
      NextPhaseCarries(start, frames, id, message);
      CarryingUndecided(start, frames, id, message);
    } else {
      LastDecider(frames, id);
      var d :| 0 <= d < |frames| && Decides(frames[d], id) && NoneDecides(frames[d + 1..], id);
      DecidedReaches(start, frames, id, phase, d);
      NextPhaseCarries(Decision(frames[d]), frames[d + 1..], id, message);
      CarryingDecided(start, frames, id, message, d);
    }
  }

  // ----- over a run -----

  /** The i-th input is a prompt, and callers are served. */
  predicate PromptAt(inputs: seq<Input>, limit: nat, i: nat)
    requires i < |inputs|
  {
    inputs[i].RequestInput? && inputs[i].isPrompt && Serving(inputs[..i], limit)
  }

  /** The frames handled after the first n inputs. */
  function FramesSince(inputs: seq<Input>, limit: nat, n: nat): seq<ServerMessage>
    requires n <= |inputs|
  {
    var known := |Run(inputs[..n], limit).ledger.handled|;
    var handled := MessagesOf(Run(inputs, limit).ledger.handled);
    if known <= |handled| then handled[known..] else []
  }

  /** Where a prompt starts: it has failed if it is too large to write. */
  function StartOf(bytes: nat, limit: nat): PromptPhase {
    if bytes > limit then PromptFailed(TooLarge(bytes, limit)) else Submitted
  }

  function FrameTaken(s: State, input: Input): seq<ServerMessage> {
    if TakesFrame(s, input) then [input.message] else []
  }

  /** The frames handled grow by at most one frame a turn. */
  lemma FramesSinceStep(inputs: seq<Input>, limit: nat, n: nat)
    requires n < |inputs|
    ensures var last := |inputs| - 1;
            FramesSince(inputs, limit, n)
            == FramesSince(inputs[..last], limit, n)
               + FrameTaken(Run(inputs[..last], limit), inputs[last])
  {
    hide Run, TakesFrame, Step;
    var last := |inputs| - 1;
    RunLast(inputs, limit);
    HandledBy(Run(inputs[..last], limit), inputs[last], limit);
    HandledGrows(inputs[..last], limit, n);
    assert inputs[..last][..n] == inputs[..n];
  }

  lemma {:induction false} HandledGrows(inputs: seq<Input>, limit: nat, n: nat)
    requires n <= |inputs|
    ensures |Run(inputs[..n], limit).ledger.handled| <= |Run(inputs, limit).ledger.handled|
    decreases |inputs|
  {
    if n == |inputs| {
      assert inputs[..n] == inputs;
    } else {
      hide Run, TakesFrame, Step;
      var last := |inputs| - 1;
      RunLast(inputs, limit);
      EachTurn(Run(inputs[..last], limit), inputs[last], limit);
      HandledGrows(inputs[..last], limit, n);
      assert inputs[..last][..n] == inputs[..n];
    }
  }

  lemma HandledBy(s: State, input: Input, limit: nat)
    ensures MessagesOf(Step(s, input, limit).ledger.handled)
            == MessagesOf(s.ledger.handled) + FrameTaken(s, input)
  {
    EachTurn(s, input, limit);
    hide Step, TakesFrame;
    var after := Step(s, input, limit).ledger.handled;
    assert forall i :: 0 <= i < |s.ledger.handled| ==> after[i] == after[..|s.ledger.handled|][i];
  }

  lemma {:induction false} AskedStaysAsked(inputs: seq<Input>, limit: nat, i: nat, n: nat)
    requires i <= |inputs| && !FateOf(inputs[..i], limit, n).NotAsked?
    ensures !FateOf(inputs, limit, n).NotAsked?
    decreases |inputs|
  {
    hide Serving, Names, EndedBy, FateOfRequest;
    if i == |inputs| {
      assert inputs[..i] == inputs;
    } else {
      assert inputs[..|inputs| - 1][..i] == inputs[..i];
      AskedStaysAsked(inputs[..|inputs| - 1], limit, i, n);
    }
  }

  /** Another caller's request leaves the prompt alone. */
  lemma OtherRequestLeaves(s: State, input: Input, limit: nat, n: nat, phase: PromptPhase)
    requires input.RequestInput? && input.caller != n && input.caller <= U64_MAX && n <= U64_MAX
    requires s.prompt == Some(PromptStatus(IdOf(n), phase)) && (s.phase == Running ==> !input.isPrompt)
    ensures PromptTurn(s, input, limit) == s.prompt
  {
    if IdOf(input.caller) == IdOf(n) {
      IdsAreDistinct(input.caller, n);
    }
    hide IdOf;
  }

  lemma PromptShown(s: State, input: Input, limit: nat)
    requires s.phase == Running && input.RequestInput? && input.isPrompt
    ensures PromptTurn(s, input, limit) == Some(PromptStatus(IdOf(input.caller), StartOf(input.bytes, limit)))
  {
    hide IdOf;
  }

  lemma NobodyReachedYet(start: PromptPhase, id: string)
    ensures Reaches(start, [], id, start)
  {
  }

  lemma SinceNow(inputs: seq<Input>, limit: nat)
    ensures FramesSince(inputs, limit, |inputs|) == []
  {
    hide Run;
    assert inputs[..|inputs|] == inputs;
  }

  /** The prompt shown has this identifier, and these frames put it where it is. */
  ghost predicate At(prompt: Option<PromptStatus>, id: string, start: PromptPhase, frames: seq<ServerMessage>) {
    prompt.Some? && prompt.value.requestId == id && Reaches(start, frames, id, prompt.value.phase)
  }

  /** A turn that brings no prompt of another caller. */
  lemma TurnKeepsAt(s: State, input: Input, limit: nat, n: nat, start: PromptPhase, frames: seq<ServerMessage>)
    requires At(s.prompt, IdOf(n), start, frames)
    requires input.RequestInput? ==>
               input.caller != n && input.caller <= U64_MAX && n <= U64_MAX && (s.phase == Running ==> !input.isPrompt)
    ensures At(Step(s, input, limit).prompt, IdOf(n), start, frames + FrameTaken(s, input))
  {
    hide Step, IdOf, Reaches, PromptTurn, TakesFrame;
    PromptStep(s, input, limit);
    assert frames + [] == frames;
    if input.RequestInput? {
      OtherRequestLeaves(s, input, limit, n, s.prompt.value.phase);
      RequestTakesNoFrame(s, input);
    } else {
      FrameOrNothing(s, input, limit);
      if TakesFrame(s, input) {
        IsFrame(s, input);
        OneMoreFrame(start, frames, IdOf(n), s.prompt.value.phase, input.message);
      }
    }
  }

  lemma RequestTakesNoFrame(s: State, input: Input)
    requires input.RequestInput?
    ensures !TakesFrame(s, input)
  {
  }

  lemma IsFrame(s: State, input: Input)
    requires TakesFrame(s, input)
    ensures input.FrameInput?
  {
  }

  lemma FrameOrNothing(s: State, input: Input, limit: nat)
    requires !input.RequestInput?
    ensures PromptTurn(s, input, limit) == if TakesFrame(s, input) then PromptAfter(s.prompt, input.message) else s.prompt
  {
    hide PromptAfter;
  }

  /** A request that reaches the actor later is another caller's. */
  lemma NewCaller(inputs: seq<Input>, limit: nat, i: nat)
    requires PossibleRun(inputs, limit) && i < |inputs| - 1 && PromptAt(inputs, limit, i)
    requires inputs[|inputs| - 1].RequestInput?
    ensures inputs[|inputs| - 1].caller != inputs[i].caller
    ensures inputs[|inputs| - 1].caller <= U64_MAX && inputs[i].caller <= U64_MAX
  {
    hide Run, Serving, PossibleRun;
    var last := |inputs| - 1;
    PossibleAt(inputs, limit, last);
    PossibleAt(inputs, limit, i);
    PrefixIsPossible(inputs, limit);
    assert inputs[..last][..i] == inputs[..i];
    AskedInRun(inputs[..last], limit, i);
  }

  lemma AskedInRun(inputs: seq<Input>, limit: nat, i: nat)
    requires PossibleRun(inputs, limit) && i < |inputs| && inputs[i].RequestInput? && inputs[i].caller <= U64_MAX
    requires Serving(inputs[..i], limit)
    ensures inputs[i].caller in Run(inputs, limit).ledger.asked
  {
    hide Run, Serving, PossibleRun, Stands;
    var n := inputs[i].caller;
    assert inputs[..i + 1][..i] == inputs[..i];
    AskedAtOnce(inputs[..i + 1], limit);
    AskedStaysAsked(inputs, limit, i + 1, n);
    EveryCallMeetsItsFate(inputs, limit, n);
    hide FateOf;
    AskedIs(Run(inputs, limit), n, FateOf(inputs, limit, n));
  }

  lemma PossibleAt(inputs: seq<Input>, limit: nat, k: nat)
    requires PossibleRun(inputs, limit) && k < |inputs| && inputs[k].RequestInput?
    ensures inputs[k].caller <= U64_MAX && inputs[k].caller !in Run(inputs[..k], limit).ledger.asked
  {
    hide Run;
    assert Possible(Run(inputs[..k], limit), inputs[k]);
  }

  lemma AskedIs(s: State, n: nat, fate: Fate)
    requires Stands(s, n, fate)
    ensures n in s.ledger.asked <==> !fate.NotAsked?
  {
  }

  lemma AskedAtOnce(inputs: seq<Input>, limit: nat)
    requires inputs != [] && inputs[|inputs| - 1].RequestInput? && Serving(inputs[..|inputs| - 1], limit)
    ensures !FateOf(inputs, limit, inputs[|inputs| - 1].caller).NotAsked?
  {
    hide Serving, EndedBy, Names;
  }

  /**
   * What is shown of the latest prompt follows from the frames handled since it was asked: the last
   * one that decides it, or its start if none did, and the agent's start and end after that. Nothing
   * else moves it: no other caller, no cancellation, not the end of the runtime.
   */
  lemma {:induction false} PromptShowsItsFrames(inputs: seq<Input>, limit: nat, i: nat)
    requires PossibleRun(inputs, limit) && i < |inputs| && PromptAt(inputs, limit, i)
    requires forall j :: i < j < |inputs| ==> !PromptAt(inputs, limit, j)
    ensures At(Run(inputs, limit).prompt, IdOf(inputs[i].caller), StartOf(inputs[i].bytes, limit),
               FramesSince(inputs, limit, i + 1))
    decreases |inputs|
  {
    hide Step, Serving, IdOf, At, FramesSince, RuntimeInv, Run, FrameTaken;
    var last := |inputs| - 1;
    var s := Run(inputs[..last], limit);
    PrefixIsPossible(inputs, limit);
    ServingExactlyWhenRunning(inputs[..last], limit);
    RunLast(inputs, limit);
    if i == last {
      assert inputs[..i + 1] == inputs;
      SinceNow(inputs, limit);
      PromptStarts(s, inputs[i], limit);
    } else {
      assert inputs[..last][..i] == inputs[..i];
      forall j | i < j < last ensures !PromptAt(inputs[..last], limit, j) {
        assert inputs[..last][..j] == inputs[..j];
        assert !PromptAt(inputs, limit, j);
      }
      PromptShowsItsFrames(inputs[..last], limit, i);
      assert !PromptAt(inputs, limit, last);
      if inputs[last].RequestInput? {
        NewCaller(inputs, limit, i);
      }
      TurnKeepsAt(s, inputs[last], limit, inputs[i].caller, StartOf(inputs[i].bytes, limit),
        FramesSince(inputs[..last], limit, i + 1));
      FramesSinceStep(inputs, limit, i + 1);
    }
  }

  lemma PromptStarts(s: State, input: Input, limit: nat)
    requires s.phase == Running && input.RequestInput? && input.isPrompt
    ensures At(Step(s, input, limit).prompt, IdOf(input.caller), StartOf(input.bytes, limit), [])
  {
    hide Step, IdOf, Reaches, PromptTurn;
    PromptStep(s, input, limit);
    PromptShown(s, input, limit);
    NobodyReachedYet(StartOf(input.bytes, limit), IdOf(input.caller));
  }
}
