/** The per-agent actor: authoritative snapshot, bounded replay buffer, bounded subscriber queues, lease timer. */
module AgentActor {
  import opened Prelude
  import opened ControlState
  import opened ActorHistory
  import opened InteractionLeases
  import opened LeaseTimers

  datatype SendOutcome = Sent | Full | ReceiverGone

  datatype RecvOutcome = Received(update: AgentUpdate) | Resync | Closed | WouldBlock

  /**
   * One subscriber's bounded queue and its overflow flag. The actor holds the sending side, the
   * subscription the receiving side. `origin` is how many updates the actor had recorded when the
   * queue was created; `received` is what the subscription has taken out so far.
   */
  class UpdateChannel {
    const capacity: nat
    var queue: seq<AgentUpdate>
    var resyncRequired: bool
    var senderOpen: bool
    var receiverOpen: bool
    ghost const origin: nat
    ghost var received: seq<AgentUpdate>

    constructor (capacity: nat, ghost origin: nat)
      ensures this.capacity == capacity && this.origin == origin
      ensures queue == [] && received == [] && !resyncRequired && senderOpen && receiverOpen
    {
      this.capacity, this.origin := capacity, origin;
      queue, received, resyncRequired, senderOpen, receiverOpen := [], [], false, true, true;
    }

    /** What was received and what is queued is a gap-free stretch of the log, complete while registered. */
    ghost predicate Follows(log: seq<AgentUpdate>)
      reads this
    {
      && origin <= |log|
      && |queue| <= capacity
      && received + queue <= log[origin..]
      && (senderOpen ==> !resyncRequired)
      && (senderOpen && receiverOpen ==> received + queue == log[origin..])
      && (!receiverOpen ==> queue == [])
    }

    method TrySend(update: AgentUpdate) returns (outcome: SendOutcome)
      modifies this`queue
      ensures outcome == if !receiverOpen then ReceiverGone else if old(|queue|) == capacity then Full else Sent
      ensures queue == if outcome == Sent then old(queue) + [update] else old(queue)
    {
      if !receiverOpen {
        return ReceiverGone;
      }
      if |queue| == capacity {
        return Full;
      }
      queue := queue + [update];
      return Sent;
    }
  }

  /** What one `record` does to one queue. */
  twostate predicate Delivered(c: UpdateChannel, update: AgentUpdate)
    reads c
  {
    var open := old(c.senderOpen) && c.receiverOpen;
    && c.receiverOpen == old(c.receiverOpen) && c.received == old(c.received)
    && c.queue == (if open && |old(c.queue)| < c.capacity then old(c.queue) + [update] else old(c.queue))
    && c.senderOpen == (open && |old(c.queue)| < c.capacity)
    && c.resyncRequired == (old(c.resyncRequired) || (open && |old(c.queue)| == c.capacity))
  }

  /** The receiving side handed to a subscriber together with the start it must apply first. */
  class AgentSubscription {
    const start: SubscriptionStart
    const channel: UpdateChannel

    constructor (start: SubscriptionStart, channel: UpdateChannel)
      ensures this.start == start && this.channel == channel
    {
      this.start, this.channel := start, channel;
    }

    /**
     * `flagged` is the overflow flag as read before the queue is looked at; the actor may set the
     * flag in between but never clears it.
     */
    method Recv(flagged: bool, ghost log: seq<AgentUpdate>) returns (outcome: RecvOutcome)
      requires channel.Follows(log) && channel.receiverOpen
      requires flagged ==> channel.resyncRequired
      modifies channel`queue, channel`received
      ensures channel.Follows(log)
      ensures flagged ==> outcome == Resync
      ensures outcome.Received? ==>
                var position := channel.origin + |old(channel.received)|;
                && position < |log| && outcome.update == log[position]
                && channel.received == old(channel.received) + [outcome.update]
                && old(channel.queue) == [outcome.update] + channel.queue
      ensures !outcome.Received? ==> channel.received == old(channel.received) && channel.queue == old(channel.queue)
      ensures outcome.Closed? ==> !channel.senderOpen && !channel.resyncRequired && channel.queue == []
      ensures outcome.WouldBlock? ==>
                channel.senderOpen && channel.origin + |channel.received| == |log|
    {
      if flagged {
        return Resync;
      }
      if channel.queue != [] {
        var update := channel.queue[0];
        assert channel.received + channel.queue
            == channel.received + [update] + channel.queue[1..];
        assert (channel.received + channel.queue)[|channel.received|] == update;
        channel.queue := channel.queue[1..];
        channel.received := channel.received + [update];
        return Received(update);
      }
      if channel.senderOpen {
        assert channel.received + channel.queue == channel.received;
        return WouldBlock;
      }
      return if channel.resyncRequired then Resync else Closed;
    }

    /** Dropping the subscription closes the receiving side and discards what is still queued. */
    method Drop(ghost log: seq<AgentUpdate>)
      requires channel.Follows(log)
      modifies channel`queue, channel`receiverOpen
      ensures channel.Follows(log) && !channel.receiverOpen && channel.queue == []
    {
      channel.receiverOpen := false;
      channel.queue := [];
    }
  }

  /** Two subscribers that both saw a log position saw the same update there. */
  lemma SubscribersAgree(a: UpdateChannel, b: UpdateChannel, log: seq<AgentUpdate>, position: nat)
    requires a.Follows(log) && b.Follows(log)
    requires a.origin <= position < a.origin + |a.received|
    requires b.origin <= position < b.origin + |b.received|
    ensures a.received[position - a.origin] == b.received[position - b.origin] == log[position]
  {
    assert (a.received + a.queue)[position - a.origin] == log[a.origin..][position - a.origin];
    assert (b.received + b.queue)[position - b.origin] == log[b.origin..][position - b.origin];
  }

  /** The updates with a sequence above the cursor's, in buffer order. */
  function NewerThan(updates: seq<AgentUpdate>, sequence: u64): seq<AgentUpdate> {
    if updates == [] then []
    else if updates[0].sequence > sequence then [updates[0]] + NewerThan(updates[1..], sequence)
    else NewerThan(updates[1..], sequence)
  }

  /** The revision reached from `revision` when every delta in turn starts where the previous one ended. */
  function ChainedRevision(revision: u64, updates: seq<AgentUpdate>): Option<u64> {
    if updates == [] then Some(revision)
    else
      var before := ChainedRevision(revision, updates[..|updates| - 1]);
      var last := updates[|updates| - 1];
      if before.None? || last.Event? then before
      else if last.delta.baseRevision == before.value then Some(last.delta.revision)
      else None
  }

  predicate Consecutive(cursor: SubscriptionCursor, updates: seq<AgentUpdate>) {
    forall k :: 0 <= k < |updates| ==>
      updates[k].sequence == cursor.eventSequence + 1 + k && updates[k].Agent() == cursor.agentId
  }

  /** What the replay check decides about any list of updates, before anything is known of where they came from. */
  predicate ReachesSnapshot(cursor: SubscriptionCursor, updates: seq<AgentUpdate>, snapshot: AgentSnapshot) {
    && Consecutive(cursor, updates)
    && cursor.eventSequence + |updates| < U64_MAX
    && cursor.eventSequence + |updates| == snapshot.eventSequence
    && ChainedRevision(cursor.revision, updates) == Some(snapshot.revision)
  }

  lemma {:induction false} BrokenChainStaysBroken(revision: u64, updates: seq<AgentUpdate>, k: nat)
    requires k <= |updates| && ChainedRevision(revision, updates[..k]).None?
    ensures ChainedRevision(revision, updates).None?
    decreases |updates| - k
  {
    if k < |updates| {
      assert updates[..k + 1][..k] == updates[..k];
      BrokenChainStaysBroken(revision, updates, k + 1);
    } else {
      assert updates[..k] == updates;
    }
  }

  /** The check's loop is right to stop at an update that is not the one to follow. */
  lemma OutOfOrder(cursor: SubscriptionCursor, updates: seq<AgentUpdate>, snapshot: AgentSnapshot, i: nat)
    requires i < |updates|
    requires updates[i].sequence != cursor.eventSequence + 1 + i || updates[i].Agent() != cursor.agentId
    ensures !ReachesSnapshot(cursor, updates, snapshot)
  {
    hide ChainedRevision;
  }

  lemma ChainBreaks(cursor: SubscriptionCursor, updates: seq<AgentUpdate>, snapshot: AgentSnapshot, i: nat)
    requires i < |updates| && updates[i].Delta?
    requires ChainedRevision(cursor.revision, updates[..i]).Some?
    requires updates[i].delta.baseRevision != ChainedRevision(cursor.revision, updates[..i]).value
    ensures !ReachesSnapshot(cursor, updates, snapshot)
  {
    hide Consecutive;
    assert updates[..i + 1][..i] == updates[..i];
    BrokenChainStaysBroken(cursor.revision, updates, i + 1);
  }

  lemma OneFurther(cursor: SubscriptionCursor, updates: seq<AgentUpdate>, i: nat, revision: u64)
    requires i < |updates| && Consecutive(cursor, updates[..i])
    requires ChainedRevision(cursor.revision, updates[..i]) == Some(revision)
    requires updates[i].sequence == cursor.eventSequence + 1 + i && updates[i].Agent() == cursor.agentId
    requires updates[i].Delta? ==> updates[i].delta.baseRevision == revision
    ensures Consecutive(cursor, updates[..i + 1])
    ensures ChainedRevision(cursor.revision, updates[..i + 1])
            == Some(if updates[i].Delta? then updates[i].delta.revision else revision)
  {
    assert updates[..i + 1][..i] == updates[..i];
    forall k | 0 <= k < i ensures updates[k].sequence == cursor.eventSequence + 1 + k && updates[k].Agent() == cursor.agentId {
      assert updates[..i][k] == updates[k];
    }
  }

  method ReplayReachesSnapshot(cursor: SubscriptionCursor, updates: seq<AgentUpdate>, snapshot: AgentSnapshot)
    returns (reaches: bool)
    ensures reaches <==> ReachesSnapshot(cursor, updates, snapshot)
  {
    hide Consecutive, ChainedRevision;
    if cursor.eventSequence == U64_MAX {
      return false;
    }
    var expectedSequence: u64 := cursor.eventSequence + 1;
    var revision := cursor.revision;
    var i := 0;
    EmptyPrefix(cursor);
    assert updates[..0] == [];
    while i < |updates|
      invariant 0 <= i <= |updates|
      invariant expectedSequence == cursor.eventSequence + 1 + i
      invariant Consecutive(cursor, updates[..i])
      invariant ChainedRevision(cursor.revision, updates[..i]) == Some(revision)
    {
      var update := updates[i];
      if update.sequence != expectedSequence {
        OutOfOrder(cursor, updates, snapshot, i);
        return false;
      }
      if update.Agent() == cursor.agentId && (update.Delta? ==> update.delta.baseRevision == revision) {
        OneFurther(cursor, updates, i, revision);
      }
      match update {
        case Delta(_, delta) =>
          if delta.agentId != cursor.agentId || delta.baseRevision != revision {
            if delta.agentId != cursor.agentId {
              OutOfOrder(cursor, updates, snapshot, i);
            } else {
              ChainBreaks(cursor, updates, snapshot, i);
            }
            return false;
          }
          revision := delta.revision;
        case Event(agentId, _, _) =>
          if agentId != cursor.agentId {
            OutOfOrder(cursor, updates, snapshot, i);
            return false;
          }
      }
      if expectedSequence == U64_MAX {
        return false;
      }
      expectedSequence := expectedSequence + 1;
      i := i + 1;
    }
    assert updates[..i] == updates;
    return revision == snapshot.revision && expectedSequence - 1 == snapshot.eventSequence;
  }

  lemma EmptyPrefix(cursor: SubscriptionCursor)
    ensures Consecutive(cursor, []) && ChainedRevision(cursor.revision, []) == Some(cursor.revision)
  {
  }

  // ----- what the replay check means on a genuine history -----

  /** The log from a position on, behind a sequence. */
  function Behind(h: History, from: nat, sequence: u64): (first: nat)
    requires from <= |h.log|
    ensures from <= first <= |h.log|
  {
    var position := sequence - h.base.eventSequence;
    if position < from then from else if position > |h.log| then |h.log| else position
  }

  lemma {:induction false} NewerThanOfWindow(h: History, from: nat, sequence: u64)
    requires Genuine(h) && from <= |h.log|
    ensures NewerThan(h.log[from..], sequence) == h.log[Behind(h, from, sequence)..]
    decreases |h.log| - from
  {
    hide Genuine, At, NextAt, NewerThan;
    if from < |h.log| {
      SequenceAt(h, from);
      assert h.log[from..][1..] == h.log[from + 1..];
      NewerThanOfWindow(h, from + 1, sequence);
      assert [h.log[from]] + h.log[from + 1..] == h.log[from..];
      NewerStep(h.log[from..], sequence);
    } else {
      NewerStep([], sequence);
      assert h.log[from..] == [];
    }
  }

  lemma NewerStep(updates: seq<AgentUpdate>, sequence: u64)
    ensures updates == [] ==> NewerThan(updates, sequence) == []
    ensures updates != [] && updates[0].sequence > sequence ==>
              NewerThan(updates, sequence) == [updates[0]] + NewerThan(updates[1..], sequence)
    ensures updates != [] && updates[0].sequence <= sequence ==>
              NewerThan(updates, sequence) == NewerThan(updates[1..], sequence)
  {
  }

  /** The k-th recorded update carries the k-th sequence number after the base, and the agent's identifier. */
  lemma SequenceAt(h: History, k: nat)
    requires Genuine(h) && k < |h.log|
    ensures h.log[k].sequence == h.base.eventSequence + k + 1
    ensures h.log[k].Agent() == h.base.agentId
    ensures h.log[k].Delta? ==>
              h.log[k].delta.baseRevision == At(h, k).revision && h.log[k].delta.revision == At(h, k + 1).revision
    ensures h.log[k].Event? ==> At(h, k + 1).revision == At(h, k).revision
  {
    hide Advance;
    CountersCount(h, k);
    assert NextAt(h, k);
    NextIsAccepted(At(h, k), h.log[k]);
  }

  /**
   * Along a genuine history the delta chain started at revision r reaches the end iff r was the real
   * revision there.
   */
  lemma {:induction false} ChainIsGenuineRevision(h: History, first: nat, last: nat, revision: u64)
    requires Genuine(h) && first <= last <= |h.log|
    ensures ChainedRevision(revision, h.log[first..last]) == Some(At(h, last).revision)
            <==> revision == At(h, first).revision
    ensures ChainedRevision(revision, h.log[first..last]) in {None, Some(revision)}
            || revision == At(h, first).revision
    ensures revision != At(h, first).revision && ChainedRevision(revision, h.log[first..last]).Some? ==>
              At(h, last).revision == At(h, first).revision
    decreases last - first
  {
    hide Genuine, At, NextAt, ChainedRevision;
    if first < last {
      SequenceAt(h, last - 1);
      ChainIsGenuineRevision(h, first, last - 1, revision);
      RevisionsGrow(h, first, last - 1);
      ChainStep(h, first, last, revision);
    } else {
      EmptyChain(revision);
      assert h.log[first..last] == [];
    }
  }

  lemma EmptyChain(revision: u64)
    ensures ChainedRevision(revision, []) == Some(revision)
  {
  }

  lemma ChainStep(h: History, first: nat, last: nat, revision: u64)
    requires first < last <= |h.log|
    ensures var before := ChainedRevision(revision, h.log[first..last - 1]);
            var update := h.log[last - 1];
            ChainedRevision(revision, h.log[first..last]) ==
            if before.None? || update.Event? then before
            else if update.delta.baseRevision == before.value then Some(update.delta.revision)
            else None
  {
    assert h.log[first..last][..last - 1 - first] == h.log[first..last - 1];
  }

  /** On a genuine history the check accepts exactly the suffix behind a cursor that was once true. */
  lemma SuffixReachesIffGenuine(h: History, from: nat, cursor: SubscriptionCursor)
    requires Genuine(h) && from <= |h.log|
    ensures ReachesSnapshot(cursor, h.log[from..], Current(h)) <==>
            && cursor.eventSequence == h.base.eventSequence + from
            && h.base.eventSequence + |h.log| < U64_MAX
            && (from < |h.log| ==> cursor.agentId == h.base.agentId)
            && cursor.revision == At(h, from).revision
  {
    hide Genuine, At, NextAt, ChainedRevision, CountDeltas;
    var updates := h.log[from..];
    assert h.log[from..|h.log|] == updates;
    ChainIsGenuineRevision(h, from, |h.log|, cursor.revision);
    CountersCount(h, |h.log|);
    forall k | 0 <= k < |updates|
      ensures updates[k].sequence == h.base.eventSequence + from + 1 + k && updates[k].Agent() == h.base.agentId
    {
      SequenceAt(h, from + k);
    }
    if from < |h.log| {
      assert updates[0].sequence == h.base.eventSequence + from + 1;
    }
  }

  /**
   * The replay buffer of every reachable actor state: at most `capacity` updates, sequences without a
   * gap up to the snapshot's, a revision chain that ends at the snapshot's, and each of its suffixes
   * folds from the matching earlier snapshot to the current one.
   */
  lemma ReplayBufferIsRecentHistory(h: History, capacity: nat, i: nat)
    requires Genuine(h) && i <= Retained(h, capacity)
    ensures var buffer := LastN(h.log, capacity);
            var oldest := |h.log| - |buffer|;
            && |buffer| <= capacity && 0 <= oldest
            && (i < |buffer| ==> buffer[i].sequence == Current(h).eventSequence - |buffer| + 1 + i)
            && ChainedRevision(At(h, oldest).revision, buffer) == Some(Current(h).revision)
            && Fold(At(h, oldest + i), buffer[i..]) == Ok(Current(h))
  {
    hide Fold, ChainedRevision, At, Genuine, NextAt, Advance, CountDeltas;
    var buffer := LastN(h.log, capacity);
    var oldest := |h.log| - |buffer|;
    assert buffer == h.log[oldest..] == h.log[oldest..|h.log|];
    assert buffer[i..] == h.log[oldest + i..];
    CountersCount(h, |h.log|);
    if i < |buffer| {
      SequenceAt(h, oldest + i);
    }
    ChainIsGenuineRevision(h, oldest, |h.log|, At(h, oldest).revision);
    SuffixFoldsToCurrent(h, oldest + i);
  }

  /** The actor refuses a cursor of another agent or one ahead of it without looking at the buffer. */
  predicate AheadOf(cursor: SubscriptionCursor, s: AgentSnapshot) {
    cursor.agentId != s.agentId || cursor.revision > s.revision || cursor.eventSequence > s.eventSequence
  }

  /** Where the retained updates behind a cursor start in the log. */
  function WindowStart(h: History, capacity: nat, sequence: u64): (first: nat)
    ensures first <= |h.log|
  {
    Behind(h, |h.log| - Retained(h, capacity), sequence)
  }

  lemma WindowIsSuffix(h: History, capacity: nat, sequence: u64)
    requires Genuine(h)
    ensures NewerThan(LastN(h.log, capacity), sequence) == h.log[WindowStart(h, capacity, sequence)..]
  {
    hide Genuine, NewerThan;
    var oldest := |h.log| - Retained(h, capacity);
    assert LastN(h.log, capacity) == h.log[oldest..];
    NewerThanOfWindow(h, oldest, sequence);
  }

  /** The cursor is inside the retained window and true there, or it is current. */
  lemma ReplayableIsWindowed(h: History, capacity: nat, cursor: SubscriptionCursor)
    requires Genuine(h) && !AheadOf(cursor, Current(h)) && cursor != CursorOf(Current(h))
    ensures var first := WindowStart(h, capacity, cursor.eventSequence);
            Replayable(h, capacity, cursor) <==>
              && cursor.eventSequence == h.base.eventSequence + first
              && h.base.eventSequence + |h.log| < U64_MAX
              && (first < |h.log| ==> cursor.agentId == h.base.agentId)
              && cursor.revision == At(h, first).revision
    ensures Replayable(h, capacity, cursor) ==>
              StartFor(h, capacity, Some(cursor)) == Replay(h.log[WindowStart(h, capacity, cursor.eventSequence)..])
  {
    hide At, Genuine, CountDeltas, LastN;
    CountersCount(h, |h.log|);
  }

  lemma AheadIsNotReplayable(h: History, capacity: nat, cursor: SubscriptionCursor)
    requires Genuine(h) && AheadOf(cursor, Current(h))
    ensures !Replayable(h, capacity, cursor)
  {
    hide At, Genuine, CountDeltas, LastN;
    CountersCount(h, |h.log|);
    var position := cursor.eventSequence - h.base.eventSequence;
    if 0 <= position <= |h.log| {
      RevisionsGrow(h, position, |h.log|);
    }
  }

  lemma CurrentStartIsEmpty(h: History, capacity: nat)
    requires Genuine(h)
    ensures StartFor(h, capacity, Some(CursorOf(Current(h)))) == Replay([])
  {
    hide At, Genuine, CountDeltas, LastN;
    CountersCount(h, |h.log|);
    assert h.log[|h.log|..] == [];
  }

  /** The early exits and the buffer check together decide exactly whether the cursor is replayable. */
  lemma ReplayCheckDecides(h: History, capacity: nat, cursor: SubscriptionCursor)
    requires Genuine(h)
    ensures var current := Current(h);
            var updates := NewerThan(LastN(h.log, capacity), cursor.eventSequence);
            && (AheadOf(cursor, current) ==> !Replayable(h, capacity, cursor))
            && (cursor == CursorOf(current) ==> StartFor(h, capacity, Some(cursor)) == Replay([]))
            && (!AheadOf(cursor, current) && cursor != CursorOf(current) ==>
                  && (ReachesSnapshot(cursor, updates, current) <==> Replayable(h, capacity, cursor))
                  && (Replayable(h, capacity, cursor) ==>
                        StartFor(h, capacity, Some(cursor)) == Replay(updates)))
  {
    hide At, Genuine, ReachesSnapshot, Replayable, NewerThan, LastN, WindowStart;
    if AheadOf(cursor, Current(h)) {
      AheadIsNotReplayable(h, capacity, cursor);
    } else if cursor == CursorOf(Current(h)) {
      CurrentStartIsEmpty(h, capacity);
    } else {
      WindowIsSuffix(h, capacity, cursor.eventSequence);
      ReplayableIsWindowed(h, capacity, cursor);
      SuffixReachesIffGenuine(h, WindowStart(h, capacity, cursor.eventSequence), cursor);
    }
  }

  /** What recording does to the history and to the buffer of its newest updates. */
  lemma PushedHistory(h: History, update: AgentUpdate, n: nat)
    requires Genuine(h) && IsNext(Current(h), update) && n > 0
    ensures Genuine(Extend(h, update)) && Current(Extend(h, update)) == Advance(Current(h), update)
    ensures var newest := LastN(h.log, n);
            LastN(Extend(h, update).log, n) == (if |newest| == n then newest[1..] else newest) + [update]
  {
    ExtendIsGenuine(h, update);
    PushKeepsLastN(h.log, n, update);
    hide Genuine, At, IsNext, Advance, LastN;
  }

  class ActorState {
    var snapshot: AgentSnapshot
    var replay: seq<AgentUpdate>
    const replayCapacity: nat
    const subscriberCapacity: nat
    const instantLimit: nat
    var subscribers: seq<UpdateChannel>
    var leaseDeadline: Option<nat>
    ghost var history: History
    ghost var channels: set<UpdateChannel>

    ghost predicate Registered()
      reads this, channels
    {
      && (forall i, j :: 0 <= i < j < |subscribers| ==> subscribers[i] != subscribers[j])
      && (forall c :: c in subscribers ==> c in channels)
      && (forall c :: c in channels ==> (c.senderOpen <==> c in subscribers))
    }

    ghost predicate Valid()
      reads this, channels
    {
      && replayCapacity > 0 && subscriberCapacity > 0
      && Genuine(history)
      && snapshot == Current(history)
      && replay == LastN(history.log, replayCapacity)
      && Registered()
      && (forall c :: c in channels ==> c.Follows(history.log) && c.capacity == subscriberCapacity)
    }

    ghost function Lease(): LeaseView
      reads this
    {
      LeaseView(snapshot, leaseDeadline)
    }

    constructor (snapshot: AgentSnapshot, replayCapacity: nat, subscriberCapacity: nat, instantLimit: nat)
      requires replayCapacity > 0 && subscriberCapacity > 0
      ensures Valid()
      ensures history == History(snapshot, []) && channels == {} && leaseDeadline == None
      ensures this.replayCapacity == replayCapacity && this.subscriberCapacity == subscriberCapacity
    {
      this.snapshot, this.replay, this.subscribers, this.leaseDeadline := snapshot, [], [], None;
      this.replayCapacity, this.subscriberCapacity := replayCapacity, subscriberCapacity;
      this.instantLimit := instantLimit;
      this.history, this.channels := History(snapshot, []), {};
    }

    /** An effective change becomes one delta in the history; a refused or empty one leaves everything alone. */
    method ApplyChange(change: AgentStateChange) returns (result: Result<Option<StateDelta>, AgentError>)
      requires Valid()
      modifies this`snapshot, this`replay, this`subscribers, this`history, channels
      ensures Valid() && channels == old(channels)
      ensures var d := DeltaFor(old(snapshot), change);
              match d
              case Err(error) => result == Err(error) && Untouched()
              case Ok(None) => result == Ok(None) && Untouched()
              case Ok(Some(update)) => result == Ok(Some(update.delta)) && history == Extend(old(history), update)
      ensures snapshot == Attempt(old(snapshot), change)
      ensures result.Ok? && result.value.Some? ==>
                && result.value.value.change == change
                && history.log == old(history.log) + [Delta(old(snapshot).eventSequence + 1, result.value.value)]
    {
      if !WouldChange(snapshot, change) {
        return Ok(None);
      }
      if snapshot.revision == U64_MAX {
        return Err(RevisionExhausted);
      }
      if snapshot.eventSequence == U64_MAX {
        return Err(EventSequenceExhausted);
      }
      var delta := StateDelta(snapshot.agentId, snapshot.revision, snapshot.revision + 1, change);
      var sequence: u64 := snapshot.eventSequence + 1;
      var applied := ApplyDelta(snapshot, delta, sequence);
      assert applied.Ok?;
      assert Advance(snapshot, Delta(sequence, delta)) == applied.value;
      snapshot := applied.value;
      Record(Delta(sequence, delta));
      return Ok(Some(delta));
    }

    method PublishEvent(event: ServerMessage) returns (result: Result<u64, AgentError>)
      requires Valid()
      modifies this`snapshot, this`replay, this`subscribers, this`history, channels
      ensures Valid() && channels == old(channels)
      ensures match EventFor(old(snapshot), event)
              case Err(error) => result == Err(error) && Untouched()
              case Ok(update) => result == Ok(update.sequence) && history == Extend(old(history), update)
      ensures result.Ok? <==> old(snapshot).eventSequence < U64_MAX
      ensures result.Ok? ==>
                && result.value == old(snapshot).eventSequence + 1
                && history.log == old(history.log) + [Event(old(snapshot).agentId, result.value, event)]
    {
      if snapshot.eventSequence == U64_MAX {
        return Err(EventSequenceExhausted);
      }
      var sequence: u64 := snapshot.eventSequence + 1;
      var update := Event(snapshot.agentId, sequence, event);
      assert Advance(snapshot, update) == snapshot.(eventSequence := sequence);
      snapshot := snapshot.(eventSequence := sequence);
      Record(update);
      return Ok(sequence);
    }

    twostate predicate Untouched()
      reads this, channels
    {
      && snapshot == old(snapshot) && replay == old(replay) && subscribers == old(subscribers)
      && history == old(history) && leaseDeadline == old(leaseDeadline) && channels == old(channels)
      && forall c :: c in old(channels) ==> unchanged(c)
    }

    /** Append to the replay buffer, dropping its oldest entry when full, and fan out to the subscribers. */
    method Record(update: AgentUpdate)
      requires replayCapacity > 0 && subscriberCapacity > 0
      requires Genuine(history) && IsNext(Current(history), update)
      requires snapshot == Advance(Current(history), update)
      requires replay == LastN(history.log, replayCapacity)
      requires Registered()
      requires forall c :: c in channels ==> c.Follows(history.log) && c.capacity == subscriberCapacity
      modifies this`replay, this`subscribers, this`history, channels
      ensures Valid()
      ensures history == Extend(old(history), update) && channels == old(channels)
      ensures forall c :: c in channels ==> Delivered(c, update)
    {
      hide Advance, IsNext, Genuine, At, Extend, LastN;
      PushedHistory(history, update, replayCapacity);
      if |replay| == replayCapacity {
        replay := replay[1..];
      }
      replay := replay + [update];
      RetainReceivers(update);
      DeliveryFollows(update);
      history := Extend(history, update);
    }

    /** What is done with one registered queue, and whether it stays in the list. */
    method OfferTo(c: UpdateChannel, update: AgentUpdate) returns (keep: bool)
      requires c.senderOpen && |c.queue| <= c.capacity
      modifies c
      ensures Delivered(c, update) && keep == c.senderOpen
    {
      var outcome := c.TrySend(update);
      match outcome {
        case Sent => return true;
        case Full =>
          c.resyncRequired := true;
          c.senderOpen := false;
          return false;
        case ReceiverGone =>
          c.senderOpen := false;
          return false;
      }
    }

    /**
     * Every registered queue with room gets the update; a full one is flagged and dropped from the
     * list, one without a receiver is dropped silently.
     */
    method RetainReceivers(update: AgentUpdate)
      requires Registered()
      requires forall c :: c in channels ==> |c.queue| <= c.capacity
      modifies this`subscribers, channels
      ensures Registered()
      ensures forall c :: c in channels ==> Delivered(c, update)
    {
      var kept: seq<UpdateChannel> := [];
      var i := 0;
      while i < |subscribers|
        invariant 0 <= i <= |subscribers| && subscribers == old(subscribers)
        invariant forall j :: i <= j < |subscribers| ==> unchanged(subscribers[j])
        invariant forall c :: c in channels && c !in subscribers ==> unchanged(c)
        invariant forall j :: 0 <= j < i ==> Delivered(subscribers[j], update)
        invariant forall j :: 0 <= j < i ==> (subscribers[j] in kept <==> subscribers[j].senderOpen)
        invariant forall c :: c in kept ==> c in subscribers[..i]
        invariant forall j, k :: 0 <= j < k < |kept| ==> kept[j] != kept[k]
        modifies channels
      {
        var c := subscribers[i];
        assert c !in kept && old(c.senderOpen);
        var keep := OfferTo(c, update);
        if keep {
          kept := kept + [c];
        }
        i := i + 1;
      }
      subscribers := kept;
    }

    twostate lemma DeliveryFollows(update: AgentUpdate)
      requires forall c :: c in channels ==> old(allocated(c))
      requires forall c :: c in channels ==> old(c.Follows(history.log)) && Delivered(c, update)
      requires history == old(history)
      ensures forall c :: c in channels ==> c.Follows(Extend(history, update).log)
    {
      var log := history.log;
      var longer := Extend(history, update).log;
      forall c | c in channels ensures c.Follows(longer) {
        assert longer[c.origin..] == log[c.origin..] + [update];
        if c.queue != old(c.queue) {
          assert c.received + c.queue == (old(c.received) + old(c.queue)) + [update];
        }
      }
    }

    /** The bounded replay answer: a replay exactly when the cursor is replayable, a resync otherwise. */
    method SubscriptionStartFor(cursor: SubscriptionCursor) returns (start: SubscriptionStart)
      requires Valid()
      ensures start == StartFor(history, replayCapacity, Some(cursor))
    {
      hide Advance, At, Genuine, ReachesSnapshot;
      ReplayCheckDecides(history, replayCapacity, cursor);
      if cursor.agentId != snapshot.agentId
         || cursor.revision > snapshot.revision
         || cursor.eventSequence > snapshot.eventSequence {
        return ResyncRequired(snapshot);
      }
      if cursor.revision == snapshot.revision && cursor.eventSequence == snapshot.eventSequence {
        return Replay([]);
      }
      var updates := NewerThan(replay, cursor.eventSequence);
      var reaches := ReplayReachesSnapshot(cursor, updates, snapshot);
      return if reaches then Replay(updates) else ResyncRequired(snapshot);
    }

    /**
     * Registration and the choice of the start happen in one step, so the new queue continues
     * exactly where the start ends.
     */
    method Subscribe(cursor: Option<SubscriptionCursor>) returns (subscription: AgentSubscription)
      requires Valid()
      modifies this`subscribers, this`channels
      ensures Valid() && fresh(subscription) && fresh(subscription.channel)
      ensures channels == old(channels) + {subscription.channel}
      ensures subscription.start == StartFor(history, replayCapacity, cursor)
      ensures subscription.channel in subscribers && subscription.channel.receiverOpen
      ensures subscription.channel.origin == |history.log| && subscription.channel.received == []
      ensures snapshot == old(snapshot) && history == old(history)
    {
      var channel := new UpdateChannel(subscriberCapacity, |history.log|);
      subscribers := subscribers + [channel];
      channels := channels + {channel};
      var start := Snapshot(snapshot);
      if cursor.Some? {
        start := SubscriptionStartFor(cursor.value);
      }
      subscription := new AgentSubscription(start, channel);
    }

    method AcquireInteractionLease(holder: LeaseHolderId, nowMs: u64, ttlMs: u64, instant: nat)
      returns (result: Result<InteractionLease, AgentError>)
      requires Valid() && ttlMs > 0
      modifies this`snapshot, this`replay, this`subscribers, this`history, this`leaseDeadline, channels
      ensures Valid() && channels == old(channels)
      ensures (Lease(), result) == AcquireLease(old(Lease()), holder, nowMs, ttlMs, instant, instantLimit)
      ensures result.Err? ==> Untouched()
      ensures result.Ok? ==>
                && result.value.holder == holder && result.value.expiresAtMs == nowMs + ttlMs
                && snapshot.interaction == Leased(result.value) && leaseDeadline == Some(instant + ttlMs)
    {
      GrantedExactlyWhen(Lease(), holder, nowMs, ttlMs, instant, instantLimit);
      match snapshot.interaction {
        case Leased(lease) =>
          if lease.expiresAtMs > nowMs && lease.holder != holder {
            return Err(LeaseRefused(HeldByOther(lease)));
          }
        case Unclaimed =>
      }
      var expiresAtMs := CheckedAdd(nowMs, ttlMs);
      if expiresAtMs.None? {
        return Err(LeaseRefused(ExpiryOverflow));
      }
      if instant + ttlMs > instantLimit {
        return Err(LeaseRefused(DurationTooLarge));
      }
      var lease := InteractionLease(holder, expiresAtMs.value);
      var applied := ApplyChange(InteractionChanged(Leased(lease)));
      if applied.Err? {
        return Err(applied.error);
      }
      leaseDeadline := Some(instant + ttlMs);
      return Ok(lease);
    }

    method ReleaseInteractionLease(holder: LeaseHolderId) returns (result: Result<(), AgentError>)
      requires Valid()
      modifies this`snapshot, this`replay, this`subscribers, this`history, this`leaseDeadline, channels
      ensures Valid() && channels == old(channels)
      ensures (Lease(), result) == ReleaseLease(old(Lease()), holder)
      ensures result.Ok? ==> snapshot.interaction == Unclaimed && leaseDeadline == None
    {
      ReleasedExactlyWhen(Lease(), holder);
      match snapshot.interaction {
        case Unclaimed => return Err(LeaseRefused(NotHeld));
        case Leased(lease) =>
          if lease.holder != holder {
            return Err(LeaseRefused(NotHolder(lease.holder)));
          }
      }
      leaseDeadline := None;
      var applied := ApplyChange(InteractionChanged(Unclaimed));
      return if applied.Err? then Err(applied.error) else Ok(());
    }

    /** The timer branch of the actor loop. */
    method LeaseTimerFired(instant: nat)
      requires Valid()
      requires leaseDeadline.Some? && leaseDeadline.value <= instant
      modifies this`snapshot, this`replay, this`subscribers, this`history, this`leaseDeadline, channels
      ensures Valid() && channels == old(channels)
      ensures Lease() == ExpireLease(old(Lease()))
      ensures leaseDeadline == None
      ensures snapshot.interaction == Unclaimed
              || (CountersFull(old(snapshot)) && snapshot == old(snapshot))
    {
      RoomGoesThrough(snapshot, Unclaimed);
      leaseDeadline := None;
      var _ := ApplyChange(InteractionChanged(Unclaimed));
    }
  }
}
