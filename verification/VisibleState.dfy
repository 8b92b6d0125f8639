/** What a reader sees of an agent: each field shows the last recorded change of it, each event what was published. */
module VisibleState {
  import opened Prelude
  import opened ControlState
  import opened ActorHistory

  /** The parts of a snapshot a reader can see, besides its counters. */
  datatype Field = LifecycleField | SessionField | RunsField | InteractionField | CommandsField

  datatype FieldValue =
    | LifecycleValue(lifecycle: AgentLifecycle)
    | SessionValue(session: Option<SessionSummary>)
    | RunsValue(active: Option<RunSnapshot>, recent: seq<RunSnapshot>)
    | InteractionValue(interaction: InteractionState)
    | CommandsValue(commands: seq<AvailableSlashCommand>)

  function Shown(s: AgentSnapshot, field: Field): FieldValue {
    match field
    case LifecycleField => LifecycleValue(s.lifecycle)
    case SessionField => SessionValue(s.session)
    case RunsField => RunsValue(s.activeRun, s.recentRuns)
    case InteractionField => InteractionValue(s.interaction)
    case CommandsField => CommandsValue(s.availableCommands)
  }

  /** The field a change is about. */
  function FieldOf(change: AgentStateChange): Field {
    match change
    case LifecycleChanged(_) => LifecycleField
    case SessionChanged(_) => SessionField
    case SessionCleared => SessionField
    case RunUpserted(_) => RunsField
    case RunRemoved(_) => RunsField
    case InteractionChanged(_) => InteractionField
    case AvailableCommandsChanged(_) => CommandsField
  }

  /** The value a change announces. A change of one run announces no whole value. */
  function Announced(change: AgentStateChange): Option<FieldValue> {
    match change
    case LifecycleChanged(lifecycle) => Some(LifecycleValue(lifecycle))
    case SessionChanged(session) => Some(SessionValue(Some(session)))
    case SessionCleared => Some(SessionValue(None))
    case RunUpserted(_) => None
    case RunRemoved(_) => None
    case InteractionChanged(interaction) => Some(InteractionValue(interaction))
    case AvailableCommandsChanged(commands) => Some(CommandsValue(commands))
  }

  // ----- one change -----

  /** A change shows exactly what it announces in its own field and leaves every other field, and the counters, alone. */
  lemma ChangeShowsWhatItAnnounces(s: AgentSnapshot, change: AgentStateChange)
    ensures var after := ApplyChange(s, change);
            && (Announced(change).Some? ==> Shown(after, FieldOf(change)) == Announced(change).value)
            && (forall field :: field != FieldOf(change) ==> Shown(after, field) == Shown(s, field))
            && after.agentId == s.agentId && after.revision == s.revision && after.eventSequence == s.eventSequence
  {
    hide WithoutRun, ClearActive;
  }

  /** Dropping a run works entry by entry, so the others keep their order. */
  lemma {:induction false} WithoutRunKeepsOrder(before: seq<RunSnapshot>, after: seq<RunSnapshot>, runId: RunId)
    ensures WithoutRun(before + after, runId) == WithoutRun(before, runId) + WithoutRun(after, runId)
  {
    if before == [] {
      assert before + after == after;
    } else {
      assert (before + after)[1..] == before[1..] + after;
      WithoutRunKeepsOrder(before[1..], after, runId);
    }
  }

  /** A run that ended becomes the newest of the finished runs; one that is still running becomes the active run. */
  lemma UpsertedRunTakesItsPlace(s: AgentSnapshot, run: RunSnapshot)
    ensures var after := ApplyChange(s, RunUpserted(run));
            if run.lifecycle.IsTerminal() then
              && after.recentRuns != [] && after.recentRuns[|after.recentRuns| - 1] == run
              && after.recentRuns[..|after.recentRuns| - 1] == ApplyChange(s, RunRemoved(run.runId)).recentRuns
              && after.activeRun == ApplyChange(s, RunRemoved(run.runId)).activeRun
            else
              && after.activeRun == Some(run)
              && after.recentRuns == ApplyChange(s, RunRemoved(run.runId)).recentRuns
  {
    hide WithoutRun;
  }

  /** Two snapshots that look the same in every field and have the same identity and counters are the same. */
  lemma LooksTheSame(a: AgentSnapshot, b: AgentSnapshot)
    requires forall field :: Shown(a, field) == Shown(b, field)
    requires a.agentId == b.agentId && a.revision == b.revision && a.eventSequence == b.eventSequence
    ensures a == b
  {
    assert Shown(a, LifecycleField) == Shown(b, LifecycleField) && Shown(a, SessionField) == Shown(b, SessionField);
    assert Shown(a, RunsField) == Shown(b, RunsField) && Shown(a, InteractionField) == Shown(b, InteractionField);
    assert Shown(a, CommandsField) == Shown(b, CommandsField);
  }

  predicate LooksDifferent(a: AgentSnapshot, b: AgentSnapshot, field: Field) {
    Shown(a, field) != Shown(b, field)
  }

  /**
   * A change is recorded, with exactly that change, if and only if some field would look different
   * after it and both counters have room; it is refused when a counter is full, and it is not recorded
   * at all when nothing would look different.
   */
  lemma RecordedExactlyWhenVisible(s: AgentSnapshot, change: AgentStateChange)
    ensures var d := DeltaFor(s, change);
            if forall field :: !LooksDifferent(ApplyChange(s, change), s, field) then d == Ok(None)
            else if s.revision < U64_MAX && s.eventSequence < U64_MAX then
              d == Ok(Some(Delta(s.eventSequence + 1, StateDelta(s.agentId, s.revision, s.revision + 1, change))))
            else d.Err?
  {
    ChangeShowsWhatItAnnounces(s, change);
    var after := ApplyChange(s, change);
    hide ApplyChange;
    if forall field :: !LooksDifferent(after, s, field) {
      forall field ensures Shown(after, field) == Shown(s, field) {
        assert !LooksDifferent(after, s, field);
      }
      LooksTheSame(after, s);
    }
  }

  /** In particular a change to another value than the one shown is recorded, once, and one to the same value never. */
  lemma RecordedExactlyWhenNew(s: AgentSnapshot, change: AgentStateChange)
    requires Announced(change).Some?
    ensures var d := DeltaFor(s, change);
            if Shown(s, FieldOf(change)) == Announced(change).value then d == Ok(None)
            else if s.revision < U64_MAX && s.eventSequence < U64_MAX then
              && d == Ok(Some(Delta(s.eventSequence + 1, StateDelta(s.agentId, s.revision, s.revision + 1, change))))
              && DeltaFor(Advance(s, d.value.value), change) == Ok(None)
            else d.Err?
  {
    ChangeShowsWhatItAnnounces(s, change);
    RecordedExactlyWhenVisible(s, change);
    var after := ApplyChange(s, change);
    if Shown(s, FieldOf(change)) != Announced(change).value {
      assert LooksDifferent(after, s, FieldOf(change));
      if s.revision < U64_MAX && s.eventSequence < U64_MAX {
        SameChangePublishesOnce(s, change);
      }
    }
  }

  // ----- over a history -----

  /** The recorded update is a change of this field. */
  predicate Touches(update: AgentUpdate, field: Field) {
    update.Delta? && FieldOf(update.delta.change) == field
  }

  predicate LastTouch(log: seq<AgentUpdate>, upto: nat, i: nat, field: Field)
    requires upto <= |log|
  {
    i < upto && Touches(log[i], field) && forall j :: i < j < upto ==> !Touches(log[j], field)
  }

  predicate Untouched(log: seq<AgentUpdate>, upto: nat, field: Field)
    requires upto <= |log|
  {
    forall j :: 0 <= j < upto ==> !Touches(log[j], field)
  }

  lemma AdvanceShows(s: AgentSnapshot, update: AgentUpdate)
    requires IsNext(s, update)
    ensures var after := Advance(s, update);
            && (forall field :: !Touches(update, field) ==> Shown(after, field) == Shown(s, field))
            && (forall field :: Touches(update, field) && Announced(update.delta.change).Some? ==>
                  Shown(after, field) == Announced(update.delta.change).value)
  {
    NextIsAccepted(s, update);
    if update.Delta? {
      ChangeShowsWhatItAnnounces(s, update.delta.change);
      hide ApplyChange;
    }
  }

  predicate ShowsLast(h: History, k: nat, field: Field)
    requires Genuine(h) && k <= |h.log|
  {
    && (field != RunsField ==> forall i: nat | i < k :: LastTouch(h.log, k, i, field) ==>
          Announced(h.log[i].delta.change) == Some(Shown(At(h, k), field)))
    && (Untouched(h.log, k, field) ==> Shown(At(h, k), field) == Shown(h.base, field))
  }

  /** A step from one snapshot to the next, told without the history. */
  lemma NextShowsLast(h: History, k: nat, field: Field)
    requires Genuine(h) && k < |h.log| && ShowsLast(h, k, field)
    ensures ShowsLast(h, k + 1, field)
  {
    hide IsNext, Advance, Shown, Announced, Genuine, At;
    EachIsNext(h, k);
    AdvanceShows(At(h, k), h.log[k]);
    if Touches(h.log[k], field) {
      TouchedShows(h, k, field);
    } else {
      UntouchedShows(h, k, field);
    }
  }

  lemma TouchedShows(h: History, k: nat, field: Field)
    requires Genuine(h) && k < |h.log| && Touches(h.log[k], field)
    requires Announced(h.log[k].delta.change).Some? ==>
               Shown(At(h, k + 1), field) == Announced(h.log[k].delta.change).value
    ensures ShowsLast(h, k + 1, field)
  {
    hide Shown, Announced, Genuine, At;
    AnnouncesUnlessRun(h.log[k].delta.change);
  }

  lemma UntouchedShows(h: History, k: nat, field: Field)
    requires Genuine(h) && k < |h.log| && ShowsLast(h, k, field) && !Touches(h.log[k], field)
    requires Shown(At(h, k + 1), field) == Shown(At(h, k), field)
    ensures ShowsLast(h, k + 1, field)
  {
    hide Shown, Announced, Genuine, At, Touches, LastTouch;
    forall i: nat | i < k + 1 && LastTouch(h.log, k + 1, i, field) ensures i < k && LastTouch(h.log, k, i, field) {
      TouchedBefore(h.log, k, i, field);
    }
  }

  lemma TouchedBefore(log: seq<AgentUpdate>, k: nat, i: nat, field: Field)
    requires k < |log| && LastTouch(log, k + 1, i, field) && !Touches(log[k], field)
    ensures i < k && LastTouch(log, k, i, field)
  {
    hide Touches;
  }

  lemma EachIsNext(h: History, k: nat)
    requires Genuine(h) && k < |h.log|
    ensures IsNext(At(h, k), h.log[k]) && At(h, k + 1) == Advance(At(h, k), h.log[k])
  {
    hide IsNext, Advance;
    assert NextAt(h, k);
  }

  lemma ShowsTheBase(h: History, field: Field)
    requires Genuine(h)
    ensures ShowsLast(h, 0, field)
  {
    hide Genuine, Shown, Announced;
  }

  lemma {:induction false} AlwaysShowsLast(h: History, k: nat, field: Field)
    requires Genuine(h) && k <= |h.log|
    ensures ShowsLast(h, k, field)
  {
    hide Genuine, ShowsLast;
    if k == 0 {
      ShowsTheBase(h, field);
    } else {
      AlwaysShowsLast(h, k - 1, field);
      NextShowsLast(h, k - 1, field);
    }
  }

  /**
   * Over any history, at any point of it: each field but the runs shows the value announced by the
   * last recorded change of it, and the one it started from if there was none.
   */
  lemma FieldShowsLastRecorded(h: History, k: nat, field: Field)
    requires Genuine(h) && k <= |h.log|
    ensures field != RunsField ==>
              forall i: nat :: LastTouch(h.log, k, i, field) ==>
                Announced(h.log[i].delta.change) == Some(Shown(At(h, k), field))
    ensures Untouched(h.log, k, field) ==> Shown(At(h, k), field) == Shown(h.base, field)
  {
    hide Genuine, Shown, Announced, At;
    AlwaysShowsLast(h, k, field);
    hide LastTouch, Untouched;
    BeforeItsEnd(h.log, k, field);
  }

  lemma BeforeItsEnd(log: seq<AgentUpdate>, upto: nat, field: Field)
    requires upto <= |log|
    ensures forall i: nat :: LastTouch(log, upto, i, field) ==> i < upto
  {
    hide Touches;
  }

  lemma AnnouncesUnlessRun(change: AgentStateChange)
    ensures FieldOf(change) != RunsField <==> Announced(change).Some?
  {
  }

  // ----- what an actor is asked to record -----

  datatype Call = Change(change: AgentStateChange) | Publish(event: ServerMessage)

  /** The history of an actor that handled these calls in order. */
  function Recording(base: AgentSnapshot, calls: seq<Call>): History {
    if calls == [] then History(base, [])
    else
      var h := Recording(base, calls[..|calls| - 1]);
      match calls[|calls| - 1]
      case Change(change) =>
        var d := DeltaFor(Current(h), change);
        if d.Ok? && d.value.Some? then Extend(h, d.value.value) else h
      case Publish(event) =>
        var u := EventFor(Current(h), event);
        if u.Ok? then Extend(h, u.value) else h
  }

  lemma {:induction false} RecordingIsGenuine(base: AgentSnapshot, calls: seq<Call>)
    ensures Genuine(Recording(base, calls)) && Recording(base, calls).base == base
  {
    if calls != [] {
      hide IsNext, DeltaFor, EventFor, Genuine, Current;
      var h := Recording(base, calls[..|calls| - 1]);
      RecordingIsGenuine(base, calls[..|calls| - 1]);
      match calls[|calls| - 1] {
        case Change(change) =>
          RecordedUpdatesAreNext(Current(h), change, OtherMessage(""));
          var d := DeltaFor(Current(h), change);
          if d.Ok? && d.value.Some? {
            ExtendIsGenuine(h, d.value.value);
          }
        case Publish(event) =>
          RecordedUpdatesAreNext(Current(h), SessionCleared, event);
          var u := EventFor(Current(h), event);
          if u.Ok? {
            ExtendIsGenuine(h, u.value);
          }
      }
    } else {
      assert Genuine(History(base, []));
    }
  }

  /** The payloads of the events in a log, in order. */
  function EventsIn(log: seq<AgentUpdate>): seq<ServerMessage> {
    if log == [] then []
    else EventsIn(log[..|log| - 1]) + (if log[|log| - 1].Event? then [log[|log| - 1].event] else [])
  }

  /** The changes in a log, in order. */
  function ChangesIn(log: seq<AgentUpdate>): seq<AgentStateChange> {
    if log == [] then []
    else ChangesIn(log[..|log| - 1]) + (if log[|log| - 1].Delta? then [log[|log| - 1].delta.change] else [])
  }

  /** How many updates the first calls have recorded, and whether the sequence has room for one more. */
  predicate HasRoom(base: AgentSnapshot, calls: seq<Call>) {
    base.eventSequence + |Recording(base, calls).log| < U64_MAX
  }

  /** The publishes that found room, in order. */
  function Accepted(base: AgentSnapshot, calls: seq<Call>): seq<ServerMessage> {
    if calls == [] then []
    else
      var before := calls[..|calls| - 1];
      var last := calls[|calls| - 1];
      Accepted(base, before) + (if last.Publish? && HasRoom(base, before) then [last.event] else [])
  }

  lemma EventsPush(log: seq<AgentUpdate>, update: AgentUpdate)
    ensures EventsIn(log + [update]) == EventsIn(log) + (if update.Event? then [update.event] else [])
    ensures ChangesIn(log + [update]) == ChangesIn(log) + (if update.Delta? then [update.delta.change] else [])
  {
    assert (log + [update])[..|log + [update]| - 1] == log;
  }

  /**
   * Over any calls: the event payloads on record are exactly those of the publishes that found room,
   * in order, and nothing but a publish records an event.
   */
  lemma {:induction false} EventsAreThosePublished(base: AgentSnapshot, calls: seq<Call>)
    ensures EventsIn(Recording(base, calls).log) == Accepted(base, calls)
  {
    if calls != [] {
      hide Genuine, Current, Extend, EventsIn;
      var before := calls[..|calls| - 1];
      var h := Recording(base, before);
      EventsAreThosePublished(base, before);
      RecordingIsGenuine(base, before);
      CallRecords(h, calls[|calls| - 1]);
      hide DeltaFor, EventFor;
    } else {
      assert EventsIn([]) == [];
    }
  }

  /** What one call adds to the payloads on record. */
  lemma CallRecords(h: History, call: Call)
    requires Genuine(h)
    ensures call.Change? ==>
              var d := DeltaFor(Current(h), call.change);
              d.Ok? && d.value.Some? ==> EventsIn(Extend(h, d.value.value).log) == EventsIn(h.log)
    ensures call.Publish? ==>
              var u := EventFor(Current(h), call.event);
              && (u.Ok? <==> h.base.eventSequence + |h.log| < U64_MAX)
              && (u.Ok? ==> EventsIn(Extend(h, u.value).log) == EventsIn(h.log) + [call.event])
  {
    CountersCount(h, |h.log|);
    hide Genuine, At;
    match call {
      case Change(change) =>
        var d := DeltaFor(Current(h), change);
        if d.Ok? && d.value.Some? {
          EventsPush(h.log, d.value.value);
        }
      case Publish(event) =>
        var u := EventFor(Current(h), event);
        if u.Ok? {
          EventsPush(h.log, u.value);
        }
    }
  }

  // ----- what applying an update accepts -----

  /**
   * Exactly when a snapshot accepts an update: it is the agent's own and not stale, and a delta starts
   * at the snapshot's revision and moves it by one, except that the last revision stays where it is.
   */
  lemma AcceptedExactlyWhen(s: AgentSnapshot, update: AgentUpdate)
    ensures ApplyUpdate(s, update).Ok? <==>
            && update.Agent() == s.agentId && update.sequence > s.eventSequence
            && (update.Delta? ==>
                  && update.delta.baseRevision == s.revision
                  && (update.delta.revision == s.revision + 1 || update.delta.revision == s.revision == U64_MAX))
    ensures ApplyUpdate(s, update).Ok? ==>
              var after := ApplyUpdate(s, update).value;
              && after.eventSequence == update.sequence
              && after.revision == (if update.Delta? then update.delta.revision else s.revision)
              && (update.Event? ==> forall field :: Shown(after, field) == Shown(s, field))
              && (update.Delta? ==>
                    forall field :: Shown(after, field) == Shown(ApplyChange(s, update.delta.change), field))
  {
    hide ApplyChange;
  }
}
