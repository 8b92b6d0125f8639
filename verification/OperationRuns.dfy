/**
 * Operation records over whole runs: what a claim answers and when a completion is taken, decided by
 * the events alone.
 */
module OperationRuns {
  import opened Prelude
  import opened OperationStore

  /** The i-th event is a claim of this key at a time the store can represent. */
  predicate ClaimedAt(events: seq<StoreEvent>, i: nat, key: OperationKey)
    requires i < |events|
  {
    events[i].ClaimEvent? && events[i].key == key && events[i].nowMs <= SQL_MAX
  }

  /** Some claim of the key is in the first n events and no prune has deleted its record since. */
  predicate Known(events: seq<StoreEvent>, n: nat, key: OperationKey)
    requires n <= |events|
  {
    exists i: nat | i < n :: KnownSince(events, i, n, key)
  }

  predicate KnownSince(events: seq<StoreEvent>, i: nat, n: nat, key: OperationKey)
    requires n <= |events|
  {
    i < n && ClaimedAt(events, i, key) && UnprunedBetween(map[], events, i + 1, n, key)
  }

  /** The i-th event takes a record out of "pending": a restart, or a completion of this key at a time that fits. */
  predicate SettlesAt(events: seq<StoreEvent>, i: nat, key: OperationKey)
    requires i < |events|
  {
    events[i] == RestartEvent
    || (events[i].CompleteEvent? && events[i].key == key && events[i].nowMs <= SQL_MAX)
  }

  predicate UnsettledBetween(events: seq<StoreEvent>, i: nat, j: nat, key: OperationKey)
    requires j <= |events|
  {
    forall k :: i <= k < j ==> !SettlesAt(events, k, key)
  }

  /** The key was handed out by the i-th event, and neither settled nor pruned up to the n-th. */
  predicate Outstanding(events: seq<StoreEvent>, i: nat, n: nat, key: OperationKey)
    requires n <= |events|
  {
    && i < n && ExecutesAt(map[], events, i, key)
    && UnprunedBetween(map[], events, i + 1, n, key) && UnsettledBetween(events, i + 1, n, key)
  }

  // ----- one step -----

  lemma FirstClaimStores(ops: Operations, key: OperationKey, request: ControlRequest, nowMs: nat)
    requires nowMs <= SQL_MAX && key !in ops
    ensures Claim(ops, key, request, nowMs).1 == Ok(Execute)
    ensures Claim(ops, key, request, nowMs).0 == ops[key := OperationRecord(request, Pending, nowMs)]
  {
  }

  lemma UnknownBecomesKnown(ops: Operations, e: StoreEvent, key: OperationKey)
    requires key !in ops
    ensures key in StoreStep(ops, e) <==> e.ClaimEvent? && e.key == key && e.nowMs <= SQL_MAX
  {
  }

  lemma StepSettles(ops: Operations, e: StoreEvent, key: OperationKey)
    requires key in ops && key in StoreStep(ops, e)
    ensures var settles := e == RestartEvent || (e.CompleteEvent? && e.key == key && e.nowMs <= SQL_MAX);
            && (!settles ==> StoreStep(ops, e)[key] == ops[key])
            && (settles && ops[key].status.Pending? ==>
                  StoreStep(ops, e)[key]
                  == ops[key].(status := if e == RestartEvent then Indeterminate else Completed(e.outcome)))
            && (!ops[key].status.Pending? ==> StoreStep(ops, e)[key] == ops[key])
  {
  }

  // ----- claims -----

  /** From an empty store: a key has a record exactly when it was claimed and not pruned since. */
  lemma {:induction false} RecordedExactlyWhenKnown(events: seq<StoreEvent>, n: nat, key: OperationKey)
    requires n <= |events|
    ensures key in StoreRun(map[], events[..n]) <==> Known(events, n, key)
  {
    if n > 0 {
      hide StoreStep;
      assert events[..n][..n - 1] == events[..n - 1];
      RecordedExactlyWhenKnown(events, n - 1, key);
      var before := StoreRun(map[], events[..n - 1]);
      if key in before {
        StepKeepsRecord(before, events[n - 1], key);
        var i: nat :| KnownSince(events, i, n - 1, key);
        if key in StoreRun(map[], events[..n]) {
          KnownStays(events, i, n, key);
        } else {
          PrunedIsUnknown(events, n, key);
        }
      } else {
        UnknownBecomesKnown(before, events[n - 1], key);
        if key in StoreRun(map[], events[..n]) {
          assert KnownSince(events, n - 1, n, key);
        } else {
          StillUnknown(events, n, key);
        }
      }
    }
  }

  lemma KnownStays(events: seq<StoreEvent>, i: nat, n: nat, key: OperationKey)
    requires 0 < n <= |events| && KnownSince(events, i, n - 1, key) && !PrunedAt(map[], events, n - 1, key)
    ensures KnownSince(events, i, n, key)
  {
    hide PrunedAt;
  }

  lemma PrunedIsUnknown(events: seq<StoreEvent>, n: nat, key: OperationKey)
    requires 0 < n <= |events| && PrunedAt(map[], events, n - 1, key)
    ensures !Known(events, n, key)
  {
  }

  lemma StillUnknown(events: seq<StoreEvent>, n: nat, key: OperationKey)
    requires 0 < n <= |events| && !Known(events, n - 1, key) && !ClaimedAt(events, n - 1, key)
    ensures !Known(events, n, key)
  {
    forall i: nat ensures !KnownSince(events, i, n, key) {
      assert !KnownSince(events, i, n - 1, key);
    }
  }

  /** A claim hands its key out exactly when its time fits and no claim of the key is still on record. */
  lemma ExecutesExactlyWhen(events: seq<StoreEvent>, i: nat, key: OperationKey)
    requires i < |events|
    ensures ExecutesAt(map[], events, i, key) <==> ClaimedAt(events, i, key) && !Known(events, i, key)
  {
    RecordedExactlyWhenKnown(events, i, key);
    hide StoreRun, Known;
  }

  /** What stands on record from the claim that stored it until it settles or a prune deletes it. */
  lemma {:induction false} UnsettledIsPending(
    ops: Operations, events: seq<StoreEvent>, i: nat, n: nat, key: OperationKey)
    requires i < n <= |events| && ExecutesAt(ops, events, i, key)
    requires UnprunedBetween(ops, events, i + 1, n, key) && UnsettledBetween(events, i + 1, n, key)
    ensures key in StoreRun(ops, events[..n])
    ensures StoreRun(ops, events[..n])[key] == OperationRecord(events[i].request, Pending, events[i].nowMs)
    decreases n
  {
    assert events[..n][..n - 1] == events[..n - 1];
    if i < n - 1 {
      hide StoreStep, Claim, ExecutesAt;
      assert !SettlesAt(events, n - 1, key) && !PrunedAt(ops, events, n - 1, key);
      assert UnprunedBetween(ops, events, i + 1, n - 1, key) && UnsettledBetween(events, i + 1, n - 1, key);
      UnsettledIsPending(ops, events, i, n - 1, key);
      StepKeepsRecord(StoreRun(ops, events[..n - 1]), events[n - 1], key);
      StepSettles(StoreRun(ops, events[..n - 1]), events[n - 1], key);
    }
  }

  /** How a record reads after the event that settled it. */
  function Settled(e: StoreEvent): OperationStatus
    requires e == RestartEvent || e.CompleteEvent?
  {
    if e == RestartEvent then Indeterminate else Completed(e.outcome)
  }

  /** The first event that settles a key decides its status until a prune deletes it. */
  lemma FirstSettlementStands(
    ops: Operations, events: seq<StoreEvent>, i: nat, s: nat, n: nat, key: OperationKey)
    requires i < s < n <= |events| && ExecutesAt(ops, events, i, key)
    requires UnsettledBetween(events, i + 1, s, key) && SettlesAt(events, s, key)
    requires UnprunedBetween(ops, events, i + 1, n, key)
    ensures key in StoreRun(ops, events[..n])
    ensures StoreRun(ops, events[..n])[key]
            == OperationRecord(events[i].request, Settled(events[s]), events[i].nowMs)
  {
    hide StoreStep, Claim, ExecutesAt, PrunedAt;
    assert UnprunedBetween(ops, events, i + 1, s, key) && UnprunedBetween(ops, events, s + 1, n, key);
    UnsettledIsPending(ops, events, i, s, key);
    assert events[..s + 1][..s] == events[..s];
    StepKeepsRecord(StoreRun(ops, events[..s]), events[s], key);
    StepSettles(StoreRun(ops, events[..s]), events[s], key);
    SettledUntilPruned(ops, events, s + 1, n, key);
  }

  /**
   * Every later claim of a key that was handed out, until a prune deletes its record: a different
   * request conflicts; the same request is in progress until the key settles, and afterwards replays
   * exactly the outcome of the first completion, or is indeterminate if a restart came first.
   */
  lemma LaterClaimsAnswer(
    ops: Operations, events: seq<StoreEvent>, i: nat, n: nat, key: OperationKey, request: ControlRequest, nowMs: nat)
    requires i < n <= |events| && ExecutesAt(ops, events, i, key)
    requires UnprunedBetween(ops, events, i + 1, n, key) && nowMs <= SQL_MAX
    ensures var answer := Claim(StoreRun(ops, events[..n]), key, request, nowMs).1;
            && (request != events[i].request ==> answer == Err(ConflictingRequest))
            && (request == events[i].request && UnsettledBetween(events, i + 1, n, key) ==> answer == Ok(InProgress))
            && forall s | i < s < n && request == events[i].request
                          && UnsettledBetween(events, i + 1, s, key) && SettlesAt(events, s, key) ::
                 answer == Ok(match events[s] case CompleteEvent(_, outcome, _) => Replayed(outcome) case _ => Unknown)
  {
    hide StoreStep, StoreRun, ExecutesAt, UnprunedBetween;
    ClaimedStaysKnown(ops, events, i, n, key);
    if UnsettledBetween(events, i + 1, n, key) {
      UnsettledIsPending(ops, events, i, n, key);
    }
    forall s | i < s < n && UnsettledBetween(events, i + 1, s, key) && SettlesAt(events, s, key)
      ensures key in StoreRun(ops, events[..n])
              && StoreRun(ops, events[..n])[key].status == Settled(events[s])
    {
      FirstSettlementStands(ops, events, i, s, n, key);
    }
  }

  lemma ClaimedStaysKnown(ops: Operations, events: seq<StoreEvent>, i: nat, n: nat, key: OperationKey)
    requires i < n <= |events| && ExecutesAt(ops, events, i, key)
    requires UnprunedBetween(ops, events, i + 1, n, key)
    ensures key in StoreRun(ops, events[..n]) && StoreRun(ops, events[..n])[key].request == events[i].request
  {
    hide PrunedAt;
    assert events[..i + 1][..i] == events[..i];
    SettledUntilPruned(ops, events, i + 1, n, key);
  }

  // ----- completions -----

  /** From an empty store: a record is pending exactly when its key is outstanding. */
  lemma {:induction false} PendingExactlyWhenOutstanding(events: seq<StoreEvent>, n: nat, key: OperationKey)
    requires n <= |events|
    ensures var ops := StoreRun(map[], events[..n]);
            key in ops && ops[key].status.Pending? <==> exists i: nat :: Outstanding(events, i, n, key)
    decreases n, 1
  {
    var ops := StoreRun(map[], events[..n]);
    if i: nat :| Outstanding(events, i, n, key) {
      UnsettledIsPending(map[], events, i, n, key);
    }
    if n > 0 && key in ops && ops[key].status.Pending? {
      PendingIsOutstanding(events, n, key);
    }
  }

  lemma PendingIsOutstanding(events: seq<StoreEvent>, n: nat, key: OperationKey)
    requires 0 < n <= |events| && key in StoreRun(map[], events[..n])
    requires StoreRun(map[], events[..n])[key].status.Pending?
    ensures exists i: nat :: Outstanding(events, i, n, key)
    decreases n, 0
  {
    assert events[..n][..n - 1] == events[..n - 1];
    var before := StoreRun(map[], events[..n - 1]);
    hide StoreStep, Claim;
    if key in before {
      StepSettles(before, events[n - 1], key);
      PendingExactlyWhenOutstanding(events, n - 1, key);
      var i: nat :| Outstanding(events, i, n - 1, key);
      assert !SettlesAt(events, n - 1, key) && !PrunedAt(map[], events, n - 1, key);
      assert Outstanding(events, i, n, key);
    } else {
      UnknownBecomesKnown(before, events[n - 1], key);
      FirstClaimStores(before, key, events[n - 1].request, events[n - 1].nowMs);
      assert Outstanding(events, n - 1, n, key);
    }
  }

  /**
   * A completion is taken exactly when its time fits and its key is outstanding: handed out, and not
   * settled or pruned since. It then stores the outcome under the request that was handed out and
   * touches nothing else; a completion that is not taken changes nothing.
   */
  lemma CompletionTakenExactlyWhen(events: seq<StoreEvent>, key: OperationKey, outcome: ResponseOutcome, nowMs: nat)
    ensures var ops := StoreRun(map[], events);
            var (after, answer) := Complete(ops, key, outcome, nowMs);
            && (answer.Ok? <==> nowMs <= SQL_MAX && exists i: nat :: Outstanding(events, i, |events|, key))
            && (answer.Ok? ==> key in ops && after == ops[key := ops[key].(status := Completed(outcome))])
            && (answer.Err? ==> after == ops)
  {
    assert events[..|events|] == events;
    PendingExactlyWhenOutstanding(events, |events|, key);
    hide StoreRun, Outstanding;
  }

  /** Handing out, completing and asking again, whatever else happens in between short of a restart or a prune of the key. */
  lemma CompletedOnceReplaysAlways(
    events: seq<StoreEvent>, i: nat, c: nat, n: nat, key: OperationKey, outcome: ResponseOutcome, nowMs: nat, laterMs: nat)
    requires i < c < n <= |events| && Outstanding(events, i, c, key)
    requires events[c] == CompleteEvent(key, outcome, nowMs) && nowMs <= SQL_MAX && laterMs <= SQL_MAX
    requires UnprunedBetween(map[], events, c, n, key)
    ensures Complete(StoreRun(map[], events[..c]), key, outcome, nowMs).1 == Ok(())
    ensures Claim(StoreRun(map[], events[..n]), key, events[i].request, laterMs).1 == Ok(Replayed(outcome))
  {
    hide Claim, PrunedAt, StoreStep;
    UnsettledIsPending(map[], events, i, c, key);
    assert UnprunedBetween(map[], events, i + 1, n, key);
    assert SettlesAt(events, c, key);
    LaterClaimsAnswer(map[], events, i, n, key, events[i].request, laterMs);
  }
}
