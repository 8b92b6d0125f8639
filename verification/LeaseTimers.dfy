/** The timer behind a lease: armed by every grant, for exactly as long as was granted, and able to end it. */
module LeaseTimers {
  import opened Prelude
  import opened ControlState
  import opened ActorHistory
  import opened InteractionLeases

  function Latest(grants: seq<Grant>): Grant
    requires grants != []
  {
    grants[|grants| - 1]
  }

  /** A deadline is the latest grant's; a lease shown is the latest grant's; with room to record, the two come and go together. */
  predicate TimerInv(r: LeaseRun) {
    && (r.view.deadline.Some? ==>
          r.grants != [] && r.view.deadline.value == Latest(r.grants).instant + Latest(r.grants).ttlMs)
    && (r.Interaction().Leased? ==>
          r.grants != [] && Latest(r.grants).sampledMs + Latest(r.grants).ttlMs <= U64_MAX
          && r.Interaction().lease
             == InteractionLease(Latest(r.grants).holder, Latest(r.grants).sampledMs + Latest(r.grants).ttlMs))
    && (!CountersFull(r.view.snapshot) ==> (r.Interaction().Leased? <==> r.view.deadline.Some?))
  }

  /** Counters only grow, so what is not full now was not full before. */
  lemma FullStaysFull(s: AgentSnapshot, change: AgentStateChange)
    ensures CountersFull(s) ==> CountersFull(Attempt(s, change))
  {
    if CountersFull(s) {
      FullCountersFreeze(s, change);
    }
    hide Attempt;
  }

  lemma RoomGoesThrough(s: AgentSnapshot, interaction: InteractionState)
    ensures DeltaFor(s, InteractionChanged(interaction)).Ok? <==> !CountersFull(s) || s.interaction == interaction
    ensures DeltaFor(s, InteractionChanged(interaction)).Ok? ==>
              Attempt(s, InteractionChanged(interaction)).interaction == interaction
    ensures DeltaFor(s, InteractionChanged(interaction)).Err? ==> Attempt(s, InteractionChanged(interaction)) == s
  {
    AttemptedInteraction(s, InteractionChanged(interaction));
    var after := ApplyChange(s, InteractionChanged(interaction));
    assert after == s.(interaction := interaction);
  }

  // ----- what an acquire and a release answer -----

  /**
   * Exactly when an acquire is granted: nobody else has an unexpired lease, both clocks can represent
   * the end, and the change can be recorded or is already shown. A grant shows the lease, answers with
   * it and arms the timer; a refusal leaves everything as it was.
   */
  lemma GrantedExactlyWhen(v: LeaseView, holder: LeaseHolderId, nowMs: u64, ttlMs: u64, instant: nat, instantLimit: nat)
    ensures var (after, answer) := AcquireLease(v, holder, nowMs, ttlMs, instant, instantLimit);
            var held := v.snapshot.interaction;
            && (answer.Ok? <==>
                  && !(held.Leased? && held.lease.holder != holder && held.lease.expiresAtMs > nowMs)
                  && nowMs + ttlMs <= U64_MAX && instant + ttlMs <= instantLimit
                  && (!CountersFull(v.snapshot) || held == Leased(InteractionLease(holder, nowMs + ttlMs))))
            && (answer.Ok? ==>
                  && nowMs + ttlMs <= U64_MAX && answer.value == InteractionLease(holder, nowMs + ttlMs)
                  && after.snapshot.interaction == Leased(answer.value) && after.deadline == Some(instant + ttlMs))
            && (answer.Err? ==> after == v)
  {
    if nowMs + ttlMs <= U64_MAX {
      RoomGoesThrough(v.snapshot, Leased(InteractionLease(holder, nowMs + ttlMs)));
    }
    hide Attempt, DeltaFor;
  }

  /**
   * Exactly when a release is answered with success: the caller holds the lease and the change can be
   * recorded; then nothing is leased. The holder's timer stops even if it cannot be recorded, and the
   * lease is then shown on. A caller without the lease changes nothing.
   */
  lemma ReleasedExactlyWhen(v: LeaseView, holder: LeaseHolderId)
    ensures var (after, answer) := ReleaseLease(v, holder);
            var held := v.snapshot.interaction;
            && (answer.Ok? <==> held.Leased? && held.lease.holder == holder && !CountersFull(v.snapshot))
            && (answer.Ok? ==> after.snapshot.interaction == Unclaimed)
            && (held.Leased? && held.lease.holder == holder ==> after.deadline == None)
            && (answer.Err? ==> after.snapshot == v.snapshot)
            && (!(held.Leased? && held.lease.holder == holder) ==> after == v)
  {
    RoomGoesThrough(v.snapshot, Unclaimed);
    hide Attempt, DeltaFor;
  }

  // ----- over runs -----

  lemma TimerInvKept(r: LeaseRun, e: LeaseEvent)
    requires TimerInv(r)
    ensures TimerInv(LeaseStep(r, e))
  {
    hide Attempt, DeltaFor, Advance, EventFor, AcquireLease, ReleaseLease;
    var s := r.view.snapshot;
    match e {
      case Acquire(holder, sampledMs, ttlMs) => AcquireKeepsTimer(r, holder, sampledMs, ttlMs);
      case Release(holder) => ReleaseKeepsTimer(r, holder);
      case TimerFires =>
        RoomGoesThrough(s, Unclaimed);
        FullStaysFull(s, InteractionChanged(Unclaimed));
      case OtherChange(change) =>
        AttemptedInteraction(s, change);
        FullStaysFull(s, change);
      case Published(event) =>
        EventKeepsInteraction(s, event);
        if CountersFull(s) {
          PublishKeepsFull(s, event);
        }
      case Tick(_) =>
    }
  }

  lemma AcquireKeepsTimer(r: LeaseRun, holder: LeaseHolderId, sampledMs: u64, ttlMs: u64)
    requires TimerInv(r)
    ensures TimerInv(LeaseStep(r, Acquire(holder, sampledMs, ttlMs)))
  {
    hide AcquireLease, CountersFull;
    var (view, answer) := AcquireLease(r.view, holder, sampledMs, ttlMs, r.now, r.instantLimit);
    GrantedExactlyWhen(r.view, holder, sampledMs, ttlMs, r.now, r.instantLimit);
    if answer.Ok? && CanHappen(r, Acquire(holder, sampledMs, ttlMs)) {
      assert Latest(r.grants + [Grant(holder, sampledMs, ttlMs, r.now)]) == Grant(holder, sampledMs, ttlMs, r.now);
    }
  }

  lemma ReleaseKeepsTimer(r: LeaseRun, holder: LeaseHolderId)
    requires TimerInv(r)
    ensures TimerInv(LeaseStep(r, Release(holder)))
  {
    RoomGoesThrough(r.view.snapshot, Unclaimed);
    FullStaysFull(r.view.snapshot, InteractionChanged(Unclaimed));
    hide Attempt, DeltaFor;
  }

  lemma {:induction false} TimerInvAlways(r: LeaseRun, events: seq<LeaseEvent>)
    requires TimerInv(r)
    ensures TimerInv(LeaseHistory(r, events))
    decreases |events|
  {
    if events != [] {
      hide LeaseStep, TimerInv;
      TimerInvKept(r, events[0]);
      TimerInvAlways(LeaseStep(r, events[0]), events[1..]);
    }
  }

  /**
   * Over every run from an unclaimed start, while the counters have room: the interaction is leased
   * exactly while a timer is armed; the timer is set to the moment of the latest grant plus what was
   * granted then, and the lease shown is that grant's.
   */
  lemma LeasedExactlyWhileArmed(start: LeaseRun, events: seq<LeaseEvent>)
    requires start.Interaction() == Unclaimed && start.view.deadline == None
    requires !CountersFull(LeaseHistory(start, events).view.snapshot)
    ensures var r := LeaseHistory(start, events);
            && (r.Interaction().Leased? <==> r.view.deadline.Some?)
            && (r.view.deadline.Some? ==>
                  && r.grants != [] && r.view.deadline == Some(Latest(r.grants).instant + Latest(r.grants).ttlMs)
                  && r.Interaction().lease.holder == Latest(r.grants).holder
                  && r.Interaction().lease.expiresAtMs == Latest(r.grants).sampledMs + Latest(r.grants).ttlMs)
  {
    TimerInvAlways(start, events);
  }

  /**
   * Once the moment of the latest grant plus what was granted has come, the timer can fire, and firing
   * leaves nothing leased and no timer, if and only if the change can still be recorded.
   */
  lemma TimerEndsTheLease(start: LeaseRun, events: seq<LeaseEvent>)
    requires start.Interaction() == Unclaimed && start.view.deadline == None
    requires var r := LeaseHistory(start, events);
             && r.view.deadline.Some? && r.Interaction().Leased?
             && r.grants != [] && Latest(r.grants).instant + Latest(r.grants).ttlMs <= r.now
    ensures var r := LeaseHistory(start, events);
            var after := LeaseStep(r, TimerFires);
            && CanHappen(r, TimerFires)
            && after.view.deadline == None && after.grants == r.grants
            && (after.Interaction() == Unclaimed <==> !CountersFull(r.view.snapshot))
  {
    TimerInvAlways(start, events);
    RoomGoesThrough(LeaseHistory(start, events).view.snapshot, Unclaimed);
    hide Attempt, DeltaFor, LeaseHistory;
  }

  /** The actor's events of a grant that runs out: it is granted, its time passes, the timer fires. */
  function RunsOut(r: LeaseRun, holder: LeaseHolderId, ttlMs: u64): LeaseRun
    requires r.Wall() <= U64_MAX
  {
    LeaseStep(LeaseStep(LeaseStep(r, Acquire(holder, r.Wall(), ttlMs)), Tick(ttlMs)), TimerFires)
  }

  /** From every unclaimed state with room for two changes: a grant that nobody touches is over once its time has passed. */
  lemma GrantRunsOut(r: LeaseRun, holder: LeaseHolderId, ttlMs: u64)
    requires r.Interaction() == Unclaimed && ttlMs > 0
    requires !NearlyFull(r.view.snapshot)
    requires r.Wall() + ttlMs <= U64_MAX && r.now + ttlMs <= r.instantLimit
    ensures var granted := LeaseStep(r, Acquire(holder, r.Wall(), ttlMs));
            && granted.Interaction() == Leased(InteractionLease(holder, r.Wall() + ttlMs))
            && !CanHappen(LeaseStep(granted, Tick(ttlMs - 1)), TimerFires)
            && CanHappen(LeaseStep(granted, Tick(ttlMs)), TimerFires)
            && RunsOut(r, holder, ttlMs).Interaction() == Unclaimed && RunsOut(r, holder, ttlMs).view.deadline == None
  {
    FreeLeaseIsGranted(r, holder, ttlMs);
    var granted := LeaseStep(r, Acquire(holder, r.Wall(), ttlMs));
    RoomGoesThrough(granted.view.snapshot, Unclaimed);
    assert LeaseStep(granted, Tick(ttlMs)) == granted.(now := granted.now + ttlMs);
    assert LeaseStep(granted, Tick(ttlMs - 1)) == granted.(now := granted.now + ttlMs - 1);
    hide Attempt, DeltaFor, AcquireLease;
  }
}
