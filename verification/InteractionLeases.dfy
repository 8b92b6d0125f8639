/**
 * The interaction lease: a wall-clock expiry on the wire, a monotonic deadline inside the actor,
 * renewal, release, and the check made before a UI answer is forwarded.
 */
module InteractionLeases {
  import opened Prelude
  import opened ControlState
  import opened ActorHistory

  datatype LeaseView = LeaseView(snapshot: AgentSnapshot, deadline: Option<nat>)

  /** The snapshot after a change the actor attempts, unchanged when nothing is recorded. */
  function Attempt(s: AgentSnapshot, change: AgentStateChange): AgentSnapshot {
    var d := DeltaFor(s, change);
    if d.Ok? && d.value.Some? then Advance(s, d.value.value) else s
  }

  /** Taking or renewing the lease; the deadline moves only once the change went through. */
  function AcquireLease(
    v: LeaseView, holder: LeaseHolderId, nowMs: u64, ttlMs: u64, instant: nat, instantLimit: nat)
    : (LeaseView, Result<InteractionLease, AgentError>)
  {
    var held := v.snapshot.interaction;
    if held.Leased? && held.lease.expiresAtMs > nowMs && held.lease.holder != holder then
      (v, Err(LeaseRefused(HeldByOther(held.lease))))
    else if CheckedAdd(nowMs, ttlMs).None? then (v, Err(LeaseRefused(ExpiryOverflow)))
    else if instant + ttlMs > instantLimit then (v, Err(LeaseRefused(DurationTooLarge)))
    else
      var lease := InteractionLease(holder, nowMs + ttlMs);
      var change := InteractionChanged(Leased(lease));
      var d := DeltaFor(v.snapshot, change);
      if d.Err? then (v, Err(d.error))
      else (LeaseView(Attempt(v.snapshot, change), Some(instant + ttlMs)), Ok(lease))
  }

  /** Releasing drops the deadline even when the change itself cannot be recorded. */
  function ReleaseLease(v: LeaseView, holder: LeaseHolderId): (LeaseView, Result<(), AgentError>) {
    match v.snapshot.interaction
    case Unclaimed => (v, Err(LeaseRefused(NotHeld)))
    case Leased(lease) =>
      if lease.holder != holder then (v, Err(LeaseRefused(NotHolder(lease.holder))))
      else
        var d := DeltaFor(v.snapshot, InteractionChanged(Unclaimed));
        (LeaseView(Attempt(v.snapshot, InteractionChanged(Unclaimed)), None),
         if d.Err? then Err(d.error) else Ok(()))
  }

  function ExpireLease(v: LeaseView): LeaseView {
    LeaseView(Attempt(v.snapshot, InteractionChanged(Unclaimed)), None)
  }

  /** The daemon's check before it forwards a UI answer of `holder`. */
  predicate MayAnswer(interaction: InteractionState, holder: LeaseHolderId, wallMs: nat) {
    interaction.Leased? && interaction.lease.holder == holder && interaction.lease.expiresAtMs > wallMs
  }

  // ----- the lease over time -----

  /** A grant as it was answered: to whom, for the wall time its caller sampled, when, and for how long. */
  datatype Grant = Grant(holder: LeaseHolderId, sampledMs: u64, ttlMs: u64, instant: nat)

  /** `now` is the monotonic clock; the wall clock runs in step with it, `offset` ahead. */
  datatype LeaseRun = LeaseRun(
    view: LeaseView, now: nat, offset: nat, instantLimit: nat, grants: seq<Grant>)
  {
    function Wall(): nat { now + offset }
    function Interaction(): InteractionState { view.snapshot.interaction }
  }

  /** An acquire carries the wall time its caller sampled, possibly well before the actor handles it. */
  datatype LeaseEvent =
    | Tick(elapsed: nat)
    | Acquire(holder: LeaseHolderId, sampledMs: u64, ttlMs: u64)
    | Release(holder: LeaseHolderId)
    | TimerFires
    | OtherChange(change: AgentStateChange)
    | Published(event: ServerMessage)

  predicate CanHappen(r: LeaseRun, e: LeaseEvent) {
    match e
    case Acquire(_, sampledMs, ttlMs) => sampledMs <= r.Wall() && ttlMs > 0
    case TimerFires => r.view.deadline.Some? && r.view.deadline.value <= r.now
    case OtherChange(change) => !change.InteractionChanged?
    case _ => true
  }

  function LeaseStep(r: LeaseRun, e: LeaseEvent): LeaseRun {
    if !CanHappen(r, e) then r
    else
      match e
      case Tick(elapsed) => r.(now := r.now + elapsed)
      case Acquire(holder, sampledMs, ttlMs) =>
        var (view, outcome) := AcquireLease(r.view, holder, sampledMs, ttlMs, r.now, r.instantLimit);
        r.(view := view, grants := if outcome.Ok? then r.grants + [Grant(holder, sampledMs, ttlMs, r.now)] else r.grants)
      case Release(holder) => r.(view := ReleaseLease(r.view, holder).0)
      case TimerFires => r.(view := ExpireLease(r.view))
      case OtherChange(change) => r.(view := r.view.(snapshot := Attempt(r.view.snapshot, change)))
      case Published(event) =>
        var u := EventFor(r.view.snapshot, event);
        if u.Ok? then r.(view := r.view.(snapshot := Advance(r.view.snapshot, u.value))) else r
  }

  function LeaseHistory(r: LeaseRun, events: seq<LeaseEvent>): LeaseRun
    decreases |events|
  {
    if events == [] then r else LeaseHistory(LeaseStep(r, events[0]), events[1..])
  }

  predicate LastGrantIs(grants: seq<Grant>, holder: LeaseHolderId) {
    grants != [] && grants[|grants| - 1].holder == holder
  }

  /**
   * A running timer never undercuts the lease it guards, the lease belongs to the latest grant, and
   * its expiry is one the monotonic clock can represent.
   */
  predicate LeaseInv(r: LeaseRun) {
    && (r.view.deadline.Some? ==>
          r.Interaction().Leased? && r.Interaction().lease.expiresAtMs <= r.view.deadline.value + r.offset)
    && (r.Interaction().Leased? ==>
          LastGrantIs(r.grants, r.Interaction().lease.holder)
          && r.Interaction().lease.expiresAtMs <= r.instantLimit + r.offset)
  }

  lemma AttemptedInteraction(s: AgentSnapshot, change: AgentStateChange)
    ensures !change.InteractionChanged? ==> Attempt(s, change).interaction == s.interaction
    ensures change.InteractionChanged? ==>
              Attempt(s, change).interaction == if DeltaFor(s, change).Err? then s.interaction else change.interaction
  {
    if change.InteractionChanged? && DeltaFor(s, change) == Ok(None) {
      assert ApplyChange(s, change).interaction == change.interaction;
    }
  }

  lemma LeaseStepKeepsInv(r: LeaseRun, e: LeaseEvent)
    requires LeaseInv(r)
    ensures LeaseInv(LeaseStep(r, e))
    ensures LeaseStep(r, e).offset == r.offset && LeaseStep(r, e).instantLimit == r.instantLimit
    ensures r.now <= LeaseStep(r, e).now
    ensures r.grants <= LeaseStep(r, e).grants
  {
    hide Attempt, DeltaFor, Advance;
    var s := r.view.snapshot;
    match e
    case Acquire(holder, sampledMs, ttlMs) =>
      if CheckedAdd(sampledMs, ttlMs).Some? {
        AttemptedInteraction(s, InteractionChanged(Leased(InteractionLease(holder, sampledMs + ttlMs))));
      }
    case OtherChange(change) => AttemptedInteraction(s, change);
    case Published(event) => EventKeepsInteraction(s, event);
    case _ => AttemptedInteraction(s, InteractionChanged(Unclaimed));
  }

  lemma EventKeepsInteraction(s: AgentSnapshot, event: ServerMessage)
    ensures EventFor(s, event).Ok? ==> Advance(s, EventFor(s, event).value).interaction == s.interaction
  {
  }

  lemma {:induction false} LeaseInvAlways(r: LeaseRun, events: seq<LeaseEvent>)
    requires LeaseInv(r)
    ensures LeaseInv(LeaseHistory(r, events))
    ensures LeaseHistory(r, events).offset == r.offset && LeaseHistory(r, events).instantLimit == r.instantLimit
    ensures r.now <= LeaseHistory(r, events).now
    ensures r.grants <= LeaseHistory(r, events).grants
    decreases |events|
  {
    if events != [] {
      hide LeaseStep, LeaseInv;
      LeaseStepKeepsInv(r, events[0]);
      LeaseInvAlways(LeaseStep(r, events[0]), events[1..]);
    }
  }

  /** The event is an action of the lease's own holder. */
  predicate OwnAction(e: LeaseEvent, holder: LeaseHolderId) {
    (e.Release? || e.Acquire?) && e.holder == holder
  }

  /**
   * An unexpired lease is ended or replaced only by its own holder: neither a competing acquire,
   * whatever wall time it sampled, nor a timer armed for an earlier grant can touch it.
   */
  lemma UnexpiredLeaseEndsOnlyByItsHolder(r: LeaseRun, e: LeaseEvent)
    requires LeaseInv(r) && r.Interaction().Leased?
    requires r.Interaction().lease.expiresAtMs > r.Wall()
    requires !OwnAction(e, r.Interaction().lease.holder)
    ensures LeaseStep(r, e).Interaction() == r.Interaction()
    ensures LeaseStep(r, e).grants == r.grants
  {
    hide Attempt, DeltaFor, Advance;
    var s := r.view.snapshot;
    match e
    case OtherChange(change) => AttemptedInteraction(s, change);
    case Published(event) => EventKeepsInteraction(s, event);
    case _ =>
  }

  /** From an unclaimed start: if the answer check passes for a holder now, no one acquired after its latest grant. */
  lemma PassingCheckNamesLatestGrant(start: LeaseRun, events: seq<LeaseEvent>, holder: LeaseHolderId)
    requires start.Interaction() == Unclaimed && start.view.deadline == None
    requires var r := LeaseHistory(start, events); MayAnswer(r.Interaction(), holder, r.Wall())
    ensures LastGrantIs(LeaseHistory(start, events).grants, holder)
  {
    LeaseInvAlways(start, events);
  }

  // ----- the check reads the lease first and the clock later -----

  /** The lease that was read is still its holder's and runs at least as long. */
  predicate Holds(r: LeaseRun, seen: InteractionLease) {
    && r.Interaction().Leased? && r.Interaction().lease.holder == seen.holder
    && r.Interaction().lease.expiresAtMs >= seen.expiresAtMs
  }

  /** No change can be recorded any more, so nobody can be granted the lease. */
  predicate CountersFull(s: AgentSnapshot) {
    s.revision == U64_MAX || s.eventSequence == U64_MAX
  }

  /** Nobody else has the lease, and nobody else can get it before the one that was read expires. */
  predicate Safe(r: LeaseRun, seen: InteractionLease) {
    || Holds(r, seen)
    || (CountersFull(r.view.snapshot) && LastGrantIs(r.grants, seen.holder))
  }

  predicate OthersOnly(events: seq<LeaseEvent>, holder: LeaseHolderId) {
    forall i :: 0 <= i < |events| ==> !OwnAction(events[i], holder)
  }

  /**
   * Whatever everyone else does from here on, if the check on the lease read earlier passes, nobody
   * else was granted it.
   */
  ghost predicate ExclusiveFrom(r: LeaseRun, seen: InteractionLease) {
    forall events :: OthersOnly(events, seen.holder) && PassesAfter(r, events, seen) ==>
      LastGrantIs(LeaseHistory(r, events).grants, seen.holder)
  }

  predicate PassesAfter(r: LeaseRun, events: seq<LeaseEvent>, seen: InteractionLease) {
    MayAnswer(Leased(seen), seen.holder, LeaseHistory(r, events).Wall())
  }

  /** The lease was read in this run: it was granted, so both clocks can reach its expiry. */
  predicate WasRead(r: LeaseRun, seen: InteractionLease) {
    seen.expiresAtMs <= r.instantLimit + r.offset
  }

  lemma HoldsKeptByOthers(r: LeaseRun, e: LeaseEvent, seen: InteractionLease)
    requires LeaseInv(r) && Holds(r, seen) && !OwnAction(e, seen.holder)
    requires seen.expiresAtMs > r.Wall()
    ensures Holds(LeaseStep(r, e), seen)
  {
    hide LeaseStep;
    UnexpiredLeaseEndsOnlyByItsHolder(r, e);
  }

  lemma FullCountersFreeze(s: AgentSnapshot, change: AgentStateChange)
    requires CountersFull(s)
    ensures Attempt(s, change) == s
    ensures DeltaFor(s, change).Err? || DeltaFor(s, change) == Ok(None)
  {
  }

  /** With full counters the interaction is frozen, and only the one who has the lease can be granted it again. */
  lemma FullStep(r: LeaseRun, e: LeaseEvent, holder: LeaseHolderId)
    requires LeaseInv(r) && CountersFull(r.view.snapshot) && LastGrantIs(r.grants, holder)
    ensures CountersFull(LeaseStep(r, e).view.snapshot) && LastGrantIs(LeaseStep(r, e).grants, holder)
  {
    hide Attempt, DeltaFor, Advance;
    var s := r.view.snapshot;
    match e {
      case Acquire(other, sampledMs, ttlMs) =>
        if CheckedAdd(sampledMs, ttlMs).Some? {
          FullAcquire(s, InteractionLease(other, sampledMs + ttlMs));
        }
      case Release(_) => FullCountersFreeze(s, InteractionChanged(Unclaimed));
      case TimerFires => FullCountersFreeze(s, InteractionChanged(Unclaimed));
      case OtherChange(change) => FullCountersFreeze(s, change);
      case Published(event) => PublishKeepsFull(s, event);
      case Tick(_) =>
    }
  }

  lemma FullAcquire(s: AgentSnapshot, lease: InteractionLease)
    requires CountersFull(s)
    ensures Attempt(s, InteractionChanged(Leased(lease))) == s
    ensures DeltaFor(s, InteractionChanged(Leased(lease))).Ok? ==> s.interaction == Leased(lease)
  {
  }

  lemma PublishKeepsFull(s: AgentSnapshot, event: ServerMessage)
    requires CountersFull(s)
    ensures EventFor(s, event).Ok? ==> CountersFull(Advance(s, EventFor(s, event).value))
  {
  }

  lemma SafeKeptByOthers(r: LeaseRun, e: LeaseEvent, seen: InteractionLease)
    requires LeaseInv(r) && Safe(r, seen) && !OwnAction(e, seen.holder)
    requires seen.expiresAtMs > r.Wall()
    ensures Safe(LeaseStep(r, e), seen)
  {
    hide LeaseStep, LeaseInv, Holds, CountersFull;
    if Holds(r, seen) {
      HoldsKeptByOthers(r, e, seen);
    } else {
      FullStep(r, e, seen.holder);
    }
  }

  lemma SafeNamesHolder(r: LeaseRun, seen: InteractionLease)
    requires LeaseInv(r) && Safe(r, seen)
    ensures LastGrantIs(r.grants, seen.holder)
  {
  }

  lemma {:induction false} SafeIsExclusive(r: LeaseRun, seen: InteractionLease, events: seq<LeaseEvent>)
    requires LeaseInv(r) && Safe(r, seen)
    requires OthersOnly(events, seen.holder) && PassesAfter(r, events, seen)
    ensures LastGrantIs(LeaseHistory(r, events).grants, seen.holder)
    decreases |events|
  {
    hide LeaseStep, LeaseInv, Safe;
    if events == [] {
      SafeNamesHolder(r, seen);
    } else {
      LeaseInvAlways(r, events);
      LeaseStepKeepsInv(r, events[0]);
      assert !OwnAction(events[0], seen.holder);
      SafeKeptByOthers(r, events[0], seen);
      SafeIsExclusive(LeaseStep(r, events[0]), seen, events[1..]);
    }
  }

  /** Waiting until the current lease has expired, then acquiring for one millisecond. */
  function Takeover(r: LeaseRun, other: LeaseHolderId): seq<LeaseEvent> {
    var wait := if r.Interaction().Leased? && r.Interaction().lease.expiresAtMs > r.Wall()
                then r.Interaction().lease.expiresAtMs - r.Wall() else 0;
    var wall := r.Wall() + wait;
    if wall > U64_MAX then [] else [Tick(wait), Acquire(other, wall, 1)]
  }

  lemma OneByOne(r: LeaseRun, first: LeaseEvent, second: LeaseEvent)
    ensures LeaseHistory(r, [first, second]) == LeaseStep(LeaseStep(r, first), second)
  {
    hide LeaseStep;
    assert [first, second][1..] == [second];
    assert [second][1..] == [];
    assert LeaseHistory(LeaseStep(r, first), [second]) == LeaseStep(LeaseStep(r, first), second);
  }

  /**
   * A lease that is free or expired is granted to whoever asks, while changes can be recorded and the
   * clock has room.
   */
  lemma FreeLeaseIsGranted(r: LeaseRun, asking: LeaseHolderId, ttlMs: u64)
    requires !CountersFull(r.view.snapshot) && ttlMs > 0
    requires r.Interaction().Leased? ==> r.Interaction().lease.expiresAtMs <= r.Wall()
    requires r.Wall() + ttlMs <= U64_MAX && r.now + ttlMs <= r.instantLimit
    ensures var after := LeaseStep(r, Acquire(asking, r.Wall(), ttlMs));
            && after.Interaction() == Leased(InteractionLease(asking, r.Wall() + ttlMs))
            && after.grants == r.grants + [Grant(asking, r.Wall(), ttlMs, r.now)]
            && after.view.deadline == Some(r.now + ttlMs)
            && after == r.(view := after.view, grants := after.grants)
            && after.view.snapshot.revision <= r.view.snapshot.revision + 1
            && after.view.snapshot.eventSequence <= r.view.snapshot.eventSequence + 1
  {
    var lease := InteractionLease(asking, r.Wall() + ttlMs);
    ChangeGoesThrough(r.view.snapshot, Leased(lease));
    AttemptMovesCounters(r.view.snapshot, InteractionChanged(Leased(lease)));
    hide Attempt, DeltaFor;
  }

  lemma AttemptMovesCounters(s: AgentSnapshot, change: AgentStateChange)
    ensures Attempt(s, change).revision <= s.revision + 1 && Attempt(s, change).eventSequence <= s.eventSequence + 1
  {
    hide ApplyChange;
  }

  /**
   * The converse for every state and every other holder: once the lease is not safe and the one that
   * was read has not expired, the other holder can be granted it while the stale check still passes.
   */
  lemma OthersCanTakeOver(r: LeaseRun, seen: InteractionLease, other: LeaseHolderId)
    requires LeaseInv(r) && WasRead(r, seen) && !Safe(r, seen)
    requires seen.expiresAtMs > r.Wall() && other != seen.holder
    requires r.Interaction().Leased? ==> r.Interaction().lease.holder == seen.holder
    requires LastGrantIs(r.grants, seen.holder)
    ensures OthersOnly(Takeover(r, other), seen.holder) && PassesAfter(r, Takeover(r, other), seen)
    ensures LastGrantIs(LeaseHistory(r, Takeover(r, other)).grants, other)
  {
    hide LeaseInv, CountersFull;
    var wait := if r.Interaction().Leased? && r.Interaction().lease.expiresAtMs > r.Wall()
                then r.Interaction().lease.expiresAtMs - r.Wall() else 0;
    var later := LeaseStep(r, Tick(wait));
    assert later == r.(now := r.now + wait);
    assert later.Wall() < seen.expiresAtMs;
    hide LeaseStep;
    FreeLeaseIsGranted(later, other, 1);
    OneByOne(r, Tick(wait), Acquire(other, later.Wall(), 1));
  }

  /**
   * Exactly when the delayed check is exclusive against every behaviour of the others: the lease that
   * was read still holds, or no grant can be recorded any more.
   */
  lemma ExclusiveExactlyWhenSafe(r: LeaseRun, seen: InteractionLease)
    requires LeaseInv(r) && WasRead(r, seen) && seen.expiresAtMs > r.Wall()
    ensures ExclusiveFrom(r, seen) <==> Safe(r, seen)
  {
    hide LeaseInv, Safe, LeaseStep;
    if Safe(r, seen) {
      forall events | OthersOnly(events, seen.holder) && PassesAfter(r, events, seen)
        ensures LastGrantIs(LeaseHistory(r, events).grants, seen.holder)
      {
        SafeIsExclusive(r, seen, events);
      }
    } else {
      assert LeaseHistory(r, []) == r;
      assert OthersOnly([], seen.holder) && PassesAfter(r, [], seen);
      if LastGrantIs(r.grants, seen.holder) {
        LeaseBelongsToLatest(r, seen.holder);
        var other := seen.holder + "'";
        OthersCanTakeOver(r, seen, other);
        assert !LastGrantIs(LeaseHistory(r, Takeover(r, other)).grants, seen.holder);
      }
    }
  }

  lemma LeaseBelongsToLatest(r: LeaseRun, holder: LeaseHolderId)
    requires LeaseInv(r) && LastGrantIs(r.grants, holder)
    ensures r.Interaction().Leased? ==> r.Interaction().lease.holder == holder
  {
  }

  // ----- the holder's own actions between the two reads -----

  /** An own action after which the lease is still safe. */
  predicate Stands(r: LeaseRun, e: LeaseEvent, seen: InteractionLease) {
    OwnAction(e, seen.holder) ==> Safe(LeaseStep(r, e), seen)
  }

  /** One more change, or the one the action makes, fills a counter. */
  predicate NearlyFull(s: AgentSnapshot) {
    s.revision >= U64_MAX - 1 || s.eventSequence >= U64_MAX - 1
  }

  /**
   * What can be seen of an own action before it is made: it cannot happen, it is an acquire that the
   * actor refuses or that reaches at least as far as the lease that was read, or it uses up a counter.
   */
  predicate Harmless(r: LeaseRun, e: LeaseEvent, seen: InteractionLease) {
    || !CanHappen(r, e)
    || NearlyFull(r.view.snapshot)
    || (e.Acquire? && (e.sampledMs + e.ttlMs > U64_MAX || r.now + e.ttlMs > r.instantLimit
                       || e.sampledMs + e.ttlMs >= seen.expiresAtMs))
  }

  /** Exactly when an own action leaves the lease safe, as a condition on the action and the state before it. */
  lemma StandsExactlyWhenHarmless(r: LeaseRun, e: LeaseEvent, seen: InteractionLease)
    requires LeaseInv(r) && Safe(r, seen) && OwnAction(e, seen.holder)
    ensures Stands(r, e, seen) <==> Harmless(r, e, seen)
  {
    hide LeaseInv, Safe;
    if CountersFull(r.view.snapshot) {
      SafeNamesHolder(r, seen);
      FullStep(r, e, seen.holder);
      FullIsSafe(LeaseStep(r, e), seen);
    } else if CanHappen(r, e) {
      SafeWithRoomHolds(r, seen);
      if e.Release? {
        ReleaseStandsExactly(r, e, seen);
      } else {
        RenewalStandsExactly(r, e, seen);
      }
    }
  }

  lemma FullIsSafe(r: LeaseRun, seen: InteractionLease)
    requires CountersFull(r.view.snapshot) && LastGrantIs(r.grants, seen.holder)
    ensures Safe(r, seen)
  {
  }

  lemma SafeWithRoomHolds(r: LeaseRun, seen: InteractionLease)
    requires Safe(r, seen) && !CountersFull(r.view.snapshot)
    ensures Holds(r, seen)
  {
  }

  /** With room in the counters an interaction change goes through, and counts itself if it changes anything. */
  lemma ChangeGoesThrough(s: AgentSnapshot, interaction: InteractionState)
    requires !CountersFull(s)
    ensures DeltaFor(s, InteractionChanged(interaction)).Ok?
    ensures Attempt(s, InteractionChanged(interaction)).interaction == interaction
    ensures interaction != s.interaction ==>
              (CountersFull(Attempt(s, InteractionChanged(interaction))) <==> NearlyFull(s))
    ensures interaction == s.interaction ==> Attempt(s, InteractionChanged(interaction)) == s
  {
    var after := ApplyChange(s, InteractionChanged(interaction));
    assert after.interaction == interaction;
    assert interaction == s.interaction ==> after == s;
  }

  lemma ReleaseStandsExactly(r: LeaseRun, e: LeaseEvent, seen: InteractionLease)
    requires LeaseInv(r) && Holds(r, seen) && e.Release? && e.holder == seen.holder
    requires !CountersFull(r.view.snapshot)
    ensures Safe(LeaseStep(r, e), seen) <==> NearlyFull(r.view.snapshot)
  {
    hide Attempt, DeltaFor;
    ChangeGoesThrough(r.view.snapshot, Unclaimed);
  }

  lemma RenewalStandsExactly(r: LeaseRun, e: LeaseEvent, seen: InteractionLease)
    requires LeaseInv(r) && Holds(r, seen) && e.Acquire? && e.holder == seen.holder && CanHappen(r, e)
    requires !CountersFull(r.view.snapshot)
    ensures Safe(LeaseStep(r, e), seen) <==> Harmless(r, e, seen)
  {
    hide Attempt, DeltaFor;
    if e.sampledMs + e.ttlMs <= U64_MAX && r.now + e.ttlMs <= r.instantLimit {
      ChangeGoesThrough(r.view.snapshot, Leased(InteractionLease(e.holder, e.sampledMs + e.ttlMs)));
    }
  }

  /** Between the two reads every own action stands. */
  predicate OwnActionsStand(r: LeaseRun, events: seq<LeaseEvent>, seen: InteractionLease)
    decreases |events|
  {
    events != [] ==> Stands(r, events[0], seen) && OwnActionsStand(LeaseStep(r, events[0]), events[1..], seen)
  }

  /** Between the two reads every own action is harmless, as far as can be seen before it is made. */
  predicate OwnActionsHarmless(r: LeaseRun, events: seq<LeaseEvent>, seen: InteractionLease)
    decreases |events|
  {
    events != [] ==>
      && (OwnAction(events[0], seen.holder) ==> Harmless(r, events[0], seen))
      && OwnActionsHarmless(LeaseStep(r, events[0]), events[1..], seen)
  }

  /** At no point between the two reads can the others take the lease unnoticed. */
  ghost predicate ExclusiveThroughout(r: LeaseRun, events: seq<LeaseEvent>, seen: InteractionLease)
    decreases |events|
  {
    && ExclusiveFrom(r, seen)
    && (events != [] ==> ExclusiveThroughout(LeaseStep(r, events[0]), events[1..], seen))
  }

  /**
   * The check that reads the lease, then time passes, then compares the clock: whatever happens in
   * between, it is exclusive against every behaviour of the others exactly when each of the holder's
   * own actions stands, that is, exactly when each of them is harmless.
   */
  lemma {:induction false} ExclusiveExactlyWhenOwnActionsStand(
    r: LeaseRun, seen: InteractionLease, events: seq<LeaseEvent>)
    requires LeaseInv(r) && WasRead(r, seen) && Safe(r, seen) && PassesAfter(r, events, seen)
    ensures ExclusiveThroughout(r, events, seen) <==> OwnActionsStand(r, events, seen)
    ensures OwnActionsStand(r, events, seen) <==> OwnActionsHarmless(r, events, seen)
    decreases |events|
  {
    hide LeaseInv, Safe, LeaseStep, ExclusiveFrom, Harmless;
    LeaseInvAlways(r, events);
    ExclusiveExactlyWhenSafe(r, seen);
    if events != [] {
      var next := LeaseStep(r, events[0]);
      LeaseStepKeepsInv(r, events[0]);
      LeaseInvAlways(next, events[1..]);
      ExclusiveExactlyWhenSafe(next, seen);
      if OwnAction(events[0], seen.holder) {
        StandsExactlyWhenHarmless(r, events[0], seen);
      } else {
        SafeKeptByOthers(r, events[0], seen);
      }
      if Safe(next, seen) {
        ExclusiveExactlyWhenOwnActionsStand(next, seen, events[1..]);
      } else {
        assert !ExclusiveThroughout(next, events[1..], seen);
      }
    }
  }

  /** The lease just read holds, so the results above start from the moment of the read. */
  lemma ReadIsSafe(r: LeaseRun)
    requires LeaseInv(r) && r.Interaction().Leased?
    ensures Safe(r, r.Interaction().lease) && WasRead(r, r.Interaction().lease)
  {
  }

  predicate GrantsOnlyTo(grants: seq<Grant>, since: nat, holder: LeaseHolderId) {
    forall i :: since <= i < |grants| ==> grants[i].holder == holder
  }

  /** While own actions stand, every grant made between the two reads went to the holder, and it still has the lease. */
  lemma {:induction false} DelayedCheckIsExclusive(r: LeaseRun, seen: InteractionLease, events: seq<LeaseEvent>)
    requires LeaseInv(r) && Safe(r, seen)
    requires OwnActionsStand(r, events, seen) && PassesAfter(r, events, seen)
    ensures var after := LeaseHistory(r, events);
            && r.grants <= after.grants && GrantsOnlyTo(after.grants, |r.grants|, seen.holder)
            && (MayAnswer(after.Interaction(), seen.holder, after.Wall()) || CountersFull(after.view.snapshot))
    decreases |events|
  {
    LeaseInvAlways(r, events);
    if events != [] {
      hide LeaseInv, Safe, LeaseStep;
      var next := LeaseStep(r, events[0]);
      LeaseStepKeepsInv(r, events[0]);
      LeaseInvAlways(next, events[1..]);
      if !OwnAction(events[0], seen.holder) {
        SafeKeptByOthers(r, events[0], seen);
      }
      OneGrantAtMost(r, events[0]);
      SafeNamesHolder(next, seen);
      DelayedCheckIsExclusive(next, seen, events[1..]);
    }
  }

  lemma OneGrantAtMost(r: LeaseRun, e: LeaseEvent)
    ensures r.grants <= LeaseStep(r, e).grants && |LeaseStep(r, e).grants| <= |r.grants| + 1
  {
    hide Attempt, DeltaFor, Advance, EventFor;
  }

  // ----- the condition is needed: a run from an unclaimed start -----

  function Unleased(): LeaseRun {
    LeaseRun(LeaseView(Initial("agent"), None), 0, 0, U64_MAX, [])
  }

  lemma PhoneAcquires() returns (r: LeaseRun, seen: InteractionLease)
    ensures r == LeaseStep(Unleased(), Acquire("phone", 0, 100))
    ensures LeaseInv(r) && r.Interaction() == Leased(seen) && seen == InteractionLease("phone", 100)
    ensures r.view.snapshot.revision <= 1 && r.view.snapshot.eventSequence <= 1
    ensures r.now == 0 && r.offset == 0 && r.instantLimit == U64_MAX
  {
    FreeLeaseIsGranted(Unleased(), "phone", 100);
    hide LeaseStep;
    LeaseStepKeepsInv(Unleased(), Acquire("phone", 0, 100));
    r := LeaseStep(Unleased(), Acquire("phone", 0, 100));
    seen := InteractionLease("phone", 100);
  }

  /**
   * Between the two reads the phone releases its lease and the laptop acquires: the answer check on
   * what was read still passes for the phone although the laptop was granted the lease last.
   */
  lemma DelayedCheckCanBeStale()
    ensures exists seen: InteractionLease, between: seq<LeaseEvent> ::
              var r := LeaseStep(Unleased(), Acquire("phone", 0, 100));
              && r.Interaction() == Leased(seen)
              && PassesAfter(r, between, seen)
              && LastGrantIs(LeaseHistory(r, between).grants, "laptop") && seen.holder == "phone"
  {
    hide LeaseStep, LeaseInv, Safe;
    var r, seen := PhoneAcquires();
    ReadIsSafe(r);
    StandsExactlyWhenHarmless(r, Release("phone"), seen);
    assert !Harmless(r, Release("phone"), seen);
    var released := LeaseStep(r, Release("phone"));
    LeaseStepKeepsInv(r, Release("phone"));
    ReleaseKeepsGrants(r, "phone");
    OthersCanTakeOver(released, seen, "laptop");
    var between := [Release("phone")] + Takeover(released, "laptop");
    assert between[1..] == Takeover(released, "laptop");
    assert LeaseHistory(r, between) == LeaseHistory(released, Takeover(released, "laptop"));
  }

  lemma ReleaseKeepsGrants(r: LeaseRun, holder: LeaseHolderId)
    requires LeaseInv(r) && r.Interaction().Leased? && r.Interaction().lease.holder == holder
    ensures var after := LeaseStep(r, Release(holder));
            && LastGrantIs(after.grants, holder) && after.now == r.now
            && (after.Interaction().Leased? ==> after.Interaction().lease.holder == holder)
  {
    hide DeltaFor, Attempt, Advance;
    AttemptedInteraction(r.view.snapshot, InteractionChanged(Unclaimed));
  }
}
