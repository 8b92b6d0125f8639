# Agent control plane: a verified model

This project models how a daemon supervises coding agents for remote clients, and proves what that
machinery keeps. One authoritative actor per agent owns a snapshot and records every update. Its
state is replicated over a lossy, prioritised connection to clients. Clients send mutating requests
that survive reconnects and daemon crashes. The daemon talks to each child process over a
line protocol with chunked frames.

`dafny verify dfyconfig.toml` checks everything.

## How it is built

Each component that changes state in place is a class whose methods are proved equal to a
specification function on values (`Reduce`, `Pushed`, `Claim`, `Send`, `HandleFrame`, ...). What the
system promises is proved about those functions: over one call, over whole runs, and over the
composition of several components.

| file | what it models |
|---|---|
| `Prelude.dfy` | 64-bit checked counters, bounded deques, decimal text, answer logs |
| `ControlState.dfy` | agent snapshots, changes, deltas, updates |
| `ActorHistory.dfy` | the history one actor incarnation records, and which resume cursors it can replay |
| `VisibleState.dfy` | what an agent shows and what its actor was asked: which change is recorded, what each field shows, which events are logged |
| `AgentActor.dfy` | the actor: replay buffer, subscriber queues, subscription starts, lease commands |
| `InteractionLeases.dfy` | the lease as a timed state machine, and the check before a UI answer is forwarded |
| `LeaseTimers.dfy` | the timer behind a lease: armed by every grant for as long as was granted, and able to end it |
| `Reducer.dfy` | the client's replica |
| `ReplicationSystem.dfy` | actors, subscriptions, the three lanes, the socket and the client together |
| `Reconvergence.dfy` | one subscription round brings a client back |
| `AgentShare.dfy` | what concerns one agent on a connection: its frames, its requests, its share of the replica |
| `SubscriptionInFlight.dfy` | which frames of one agent are on their way, and what its client holds once they arrived, over every run |
| `SubscriptionRuns.dfy` | exactly when the answer to a subscription brings the client back, and what becomes of a start that is cut |
| `SubscriptionExamples.dfy` | two runs from the start: an update that arrives twice, and a replay that is about to be cut |
| `SubscriptionLoops.dfy` | the loops that serve subscriptions: one per agent, ended by an unsubscribe, given up for a slow consumer |
| `Delivery.dfy` | from the actor to the screen: what a client reports was asked for, and what an actor records arrives |
| `QueueFanOut.dfy` | the actor's queue objects and the queues of the whole-system model are the same |
| `RpcFrames.dfy` | chunk frames, their decoder, the splitter |
| `StdoutPipeline.dfy` | from arbitrary reads of stdout to messages |
| `ReferenceCodec.dfy` | a codec that has the properties the pipeline's results assume |
| `RuntimeActor.dfy` | the actor that owns a child process: callers and their answers, the latest prompt, the end |
| `RuntimeRuns.dfy` | what becomes of each call to a child, and how the runtime ends, told from the inputs |
| `RuntimePrompts.dfy` | what is shown of the latest prompt, told from the child's frames |
| `OperationStore.dfy` | operation records: claim, complete, recover, prune |
| `OperationRuns.dfy` | what claims and completions answer over whole runs, decided by the events alone |
| `ClientRequests.dfy` | the client's table of unanswered requests |
| `RequestAnswers.dfy` | which submission a response answers, over whole runs |
| `AtMostOnce.dfy` | client table, connections, daemon and crashes together |
| `MutationAnswers.dfy` | that mutations and their retries are answered, and with what |
| `PairingStore.dfy` | pairing grants exchanged for devices in transactions, devices authenticated and revoked |
| `PairedDevices.dfy` | when a grant can be used, and what the credential it buys opens, over whole runs |

## Main results

- **The replica is never wrong** (`ReplicationSystem.ReplicaIsNeverWrong`). Whatever interleaving of
  changes, subscriptions, full queues, dropped frames, overtaking control frames and lost
  connections happens, every snapshot a client holds was the agent's authoritative snapshot at some
  moment of the run, the one with the event sequence it carries.
- **One round reconverges** (`Reconvergence.OneRoundReconverges`): from every reachable state with an
  idle link, missing, flagged, stale or current replicas all end unflagged and equal to the actor.
- **What the client holds is decided by its latest subscription**
  (`SubscriptionInFlight.ClientFollowsItsStart`), over every run without exception, with cut starts,
  gaps, queues of older subscriptions that linger and lost connections: once the start has arrived, a
  client it left in step is exactly as far as the live updates it has taken, and any other client was
  flagged by the first of them.
- **An answer restores the client if and only if it fits**
  (`SubscriptionRuns.AnswerReachesClientExactlyWhen`), with whatever frames of older subscriptions
  still on their way: it carries a snapshot, or it replays the log from exactly where those frames
  will leave the client. A client that asks again by itself is always restored
  (`SubscriptionRuns.OwnRepairRestores`), and so is one that asks with its own cursor while nothing
  is on its way (`SubscriptionRuns.StartSurvivesInterleaving`).
- **A cut replay never goes unnoticed** (`SubscriptionRuns.CutReplayIsCaught`): over every later run
  the client holds exactly the snapshot at the cut, or is flagged, until another answer comes.
- **What the actor is asked is what the screen shows.** A change is recorded if and only if it alters
  something visible and the counters have room (`VisibleState.RecordedExactlyWhenVisible`); every field
  always shows its last recorded change (`VisibleState.FieldShowsLastRecorded`); the logged events are
  those that were published (`VisibleState.EventsAreThosePublished`). Whatever a client reports was
  asked of that agent's actor by the very event that recorded it (`Delivery.ReportedEffectWasAsked`),
  and a change or event reaches a client in step within three steps
  (`Delivery.ChangeReachesTheClient`, `Delivery.EventReachesTheClient`).
- **Subscriptions have one loop per agent** (`SubscriptionLoops.OneLoopPerAgent`), an unsubscribe ends
  it for good (`SubscriptionLoops.UnsubscribeEndsTheLoop`), and a consumer that is too slow is told
  (`SubscriptionLoops.SlowConsumerIsTold`).
- **Replay is taken exactly when it is sound** (`AgentActor.ActorState.SubscriptionStartFor` with
  `ActorHistory.TrueCursorReplaysIffRetained`). The one exception: at the last representable event
  sequence even a retained suffix is refused, because the loop's counter would overflow.
- **Mutations execute at most once** (`AtMostOnce.MutationsExecuteAtMostOnce`), and a mutation that
  was answered with a result executed exactly once, with that outcome on record. From every reachable
  world a mutation that nothing disturbs is answered with what its execution returned
  (`MutationAnswers.UndisturbedMutationIsAnswered`), and a retry with what is on record, also after a
  crash (`MutationAnswers.RetryIsAnswered`, `MutationAnswers.RetryAfterCrash`).
- **The operation store answers by the events alone**: a claim executes if and only if its key is not
  on record (`OperationRuns.ExecutesExactlyWhen`), a completion is taken if and only if its key was
  handed out and not settled or pruned since (`OperationRuns.CompletionTakenExactlyWhen`), and every
  later claim replays exactly the first completion (`OperationRuns.LaterClaimsAnswer`).
- **A response answers a submission if and only if** that submission was sent under its identifier on
  the live connection and is not answered yet (`RequestAnswers.ResponseAnswersExactlyWhen`); an
  identifier that was spent answers nothing at any later time
  (`RequestAnswers.SpentIdentifierAnswersNothing`).
- **Every call to a child meets the fate its inputs give it** (`RuntimeRuns.EveryCallMeetsItsFate`):
  the first frame that names it, its cancellation, its own failed write, or the end. After a
  cancellation its caller hears nothing, ever (`RuntimeRuns.CancelledHearsNothing`), and the prompt
  shown follows from the child's frames (`RuntimePrompts.PromptShowsItsFrames`).
- **A credential opens its device until it is revoked** (`PairedDevices.CredentialOpensItsDevice`), and
  a grant buys one exactly while it is open (`PairedDevices.ExchangeSucceedsExactlyWhen`).
- **The stdout pipeline is transparent** (`StdoutPipeline.ReadWritten`): any partition of the bytes
  into reads yields exactly the messages written, in order, whole or chunked.
- **Requests, runtime calls and pairing grants are conserved**
  (`ClientRequests.RequestsAreConserved`, `RuntimeActor.RuntimeInvAlways`,
  `PairingStore.GrantsAreConserved`); every plain send taken by a runtime is answered exactly once, in
  order (`RuntimeActor.SendsAreAnsweredOnce`), and so is the shutdown that ends it
  (`RuntimeActor.ShutdownIsAnsweredOnce`).
- **Leases are exclusive over time** (`InteractionLeases.UnexpiredLeaseEndsOnlyByItsHolder`), and the
  check before a UI answer is exclusive against everyone else exactly when each action its holder
  takes between the check's two reads is harmless
  (`InteractionLeases.ExclusiveExactlyWhenOwnActionsStand`). Over every run an interaction is leased
  exactly while a timer is armed, set to the latest grant plus what was granted
  (`LeaseTimers.LeasedExactlyWhileArmed`), and the timer ends it (`LeaseTimers.TimerEndsTheLease`).

## Where the code needs care

- `crates/ompd/src/controller.rs:132-142` reads the lease and compares the clock later. The check is
  exclusive for the moment of the read. For the moment of the comparison it is exclusive exactly when
  every own action of the holder in between is harmless: it cannot happen, it is an acquire that is
  refused or that reaches at least as far as the lease that was read, or it uses up a counter so that
  nothing can be granted any more. After any other own action somebody else can be granted the lease
  while the stale check still passes (`InteractionLeases.OthersCanTakeOver`, for every state and every
  other holder); `InteractionLeases.DelayedCheckCanBeStale` is one such run from an unclaimed start.
- `notes.md:40` says read-only requests are failed on disconnect. The code keeps every
  pending request and sends it again (`crates/omp-control-client/src/client.rs:474-477` and `815-820`);
  the model follows the code.
- `crates/ompd/src/server.rs:540-545` stops a replay when the state lane is full and goes on with live
  updates. `SubscriptionRuns.StartIsCutExactlyWhen` says when,
  `SubscriptionRuns.CutIsHarmlessExactlyWhen` when it makes no difference, and
  `SubscriptionRuns.CutReplayIsCaught` that the client otherwise stays at the cut or is flagged: until
  the next live update it shows an older state and does not know it.
- A user who turns an agent off and on again while an update of it is on its way gets that update
  twice: the client resumes from a cursor that does not yet count it
  (`crates/omp-control-client/src/client.rs:561-575`), and the second copy is rejected, flags the agent
  and makes the client ask again. `SubscriptionRuns.ReplayFitsExactlyWhen` says exactly when that
  happens; `SubscriptionExamples.DoubledUpdateDoesNotFit` is such a run.
- A prompt whose write breaks the pipe is never marked as failed
  (`crates/omp-runtime/src/runtime.rs:409-422` marks only the one that is too large): its status stays
  "submitted" for good (`RuntimeActor.UnsentPromptStaysSubmitted`).
- `crates/omp-control-plane/src/actor.rs:583-585` refuses a replay at the last event sequence;
  `ActorHistory.RetainedSuffixCanBeRefused` is a history in which a retained suffix is refused.
- With full counters nothing can be recorded any more. A lease that is shown then stays shown after
  its timer fired or its holder released it, and its timer is gone
  (`crates/omp-control-plane/src/actor.rs:353-359` and `541-557`); `LeaseTimers.TimerEndsTheLease` and
  `LeaseTimers.ReleasedExactlyWhen` say that this is the only case.
- An operation identifier supplied by a caller (`crates/omp-control-client/src/client.rs:77-92`) may repeat.
  Conservation and at-most-once execution hold for it all the same; that different submissions never
  share an operation holds for the identifiers the client draws itself.
- An upsert of a run that is still running forgets a different active run
  (`ControlState.UpsertIsLastWriterWins` says exactly which run is lost).
- The key counter of the client's table wraps
  (`crates/omp-control-client/src/client.rs:695-696`): results about the table hold for up to 2^64
  submissions.

## What is abstracted

- Snapshots and their run lists are values; an in-place mutation of a snapshot is a reassignment of
  the field of its owner.
- The JSON codec is any codec whose lines contain no other newline and parse back
  (`RpcFrames.Faithful`; `ReferenceCodec.FaithfulCodecExists` shows that this can be met).
  A chunk keeps its decoded payload; base64 is any text form in which only the empty text stands for
  no bytes. CBOR frames are values. Hashes are injective.
- Clocks, random identifiers and tokens, read boundaries, write failures and crashes are parameters
  or events.
- SQLite transactions are buffered rows plus one atomic commit; a fault may hit before any statement
  or right after the commit. Times over 2^63-1 are refused, as the column type demands.

## Model

| member | source | states |
|---|---|---|
| `ControlState.WithoutRunKeepsOthers` | crates/omp-control-protocol/src/state.rs:194-196 | retaining by run identifier keeps exactly the other runs, keeps identifiers distinct, and is the identity when the run is absent |
| `ControlState.ApplyChangeKeepsRunTable` | crates/omp-control-protocol/src/state.rs:188-229 | every change keeps the run table: recent runs distinct and terminal, the active run running and not among them |
| `ControlState.ApplyChangeIdempotent` | crates/omp-control-protocol/src/state.rs:117-122 | applying a change twice is applying it once, so the second time nothing would change |
| `ControlState.UpsertIsLastWriterWins` | crates/omp-control-protocol/src/state.rs:193-209 | looked up by identifier, an upsert wins over what was there; another run is lost only when a running run displaces a different active one |
| `ControlState.RemovalForgetsOneRun` | crates/omp-control-protocol/src/state.rs:210-221 | a removal forgets that run and no other |
| `VisibleState.ChangeShowsWhatItAnnounces` | crates/omp-control-protocol/src/state.rs:188-229 | a change shows what it announces in its own field (lifecycle, session set or cleared, interaction, commands) and leaves every other field alone |
| `VisibleState.UpsertedRunTakesItsPlace` | crates/omp-control-protocol/src/state.rs:193-209 | an upserted run is the active one while it runs and the last of the recent ones when it has ended, the others keeping their order |
| `VisibleState.RecordedExactlyWhenVisible` | crates/omp-control-plane/src/actor.rs:399-426 | a change is recorded if and only if some field would show something else and both counters have room; with no visible difference the answer is "nothing changed" |
| `VisibleState.RecordedExactlyWhenNew` | crates/omp-control-plane/src/actor.rs:399-426 | a change to a value other than the one shown is recorded, as exactly its delta and once; the value shown is never recorded again |
| `VisibleState.AdvanceShows` | crates/omp-control-protocol/src/state.rs:124-185 | applying an update changes what the field of its change shows and no other field |
| `VisibleState.FieldShowsLastRecorded` | crates/omp-control-protocol/src/state.rs:188-229 | at every moment of every history each field shows the value of the last recorded change of it, or its base value if there was none |
| `VisibleState.EventsAreThosePublished` | crates/omp-control-plane/src/actor.rs:399-446 | over any run of changes and publishes with room in the counters, the payloads in the log are those published, in order |
| `VisibleState.AcceptedExactlyWhen` | crates/omp-control-protocol/src/state.rs:124-185 | an update is accepted exactly when agent, sequence and revisions fit; then it is applied |
| `ActorHistory.RecordedUpdatesAreNext` | crates/omp-control-plane/src/actor.rs:399-446 | whatever the actor records directly follows its snapshot, so the `expect` on `apply_delta` never fires |
| `ActorHistory.NextIsAccepted` | crates/omp-control-protocol/src/state.rs:124-185 | a directly following update is accepted, moves the sequence by one and the revision by one for a delta only, and keeps the run table |
| `ActorHistory.SameChangePublishesOnce` | crates/omp-control-plane/src/actor.rs:399-426 | publishing the same change twice in a row records one delta at most |
| `ActorHistory.ExtendIsGenuine` | crates/omp-control-plane/src/actor.rs:448-463 | recording extends the history by one genuine update and rewrites no earlier snapshot |
| `ActorHistory.CountersCount` | crates/omp-control-plane/src/actor.rs:399-446 | over any run the sequence gained is the number of updates and the revision gained the number of deltas |
| `ActorHistory.SuffixFoldsToCurrent` | crates/omp-control-protocol/src/state.rs:124-165 | folding any suffix of the history from the snapshot where it starts reaches the current snapshot |
| `ActorHistory.PastStepsToPast` | crates/omp-control-protocol/src/state.rs:124-165 | whoever holds a past snapshot and accepts the recorded update after it holds a past snapshot again |
| `ActorHistory.TrueCursorReplaysIffRetained` | crates/omp-control-plane/src/actor.rs:483-507 | a cursor that was once true is answered by the replay that folds to the current snapshot exactly while the buffer reaches back to it and the last sequence is not reached, and by a resync otherwise |
| `ActorHistory.RetainedSuffixCanBeRefused` | crates/omp-control-plane/src/actor.rs:583-585 | at the last event sequence a true cursor one event behind, still in the buffer, gets a resync |
| `AgentActor.UpdateChannel.TrySend` | crates/omp-control-plane/src/actor.rs:453-462 | a send succeeds, finds the queue full or finds the receiver gone, and only a success changes the queue |
| `AgentActor.AgentSubscription.Recv` | crates/omp-control-plane/src/actor.rs:193-204 | what a subscription receives is the next entry of the actor log after its start; a flagged one gets a resync and never a later update; closed and waiting are told apart |
| `AgentActor.AgentSubscription.Drop` | crates/omp-control-plane/src/actor.rs:459-461 | dropping a subscription closes its receiving side and discards its queue, and what it received stays a stretch of the log |
| `AgentActor.SubscribersAgree` | crates/omp-control-plane/src/actor.rs:448-481 | two subscribers that both received a log position received the same update |
| `AgentActor.ReplayReachesSnapshot` | crates/omp-control-plane/src/actor.rs:560-590 | the loop decides exactly: consecutive sequences of the cursor's agent, a chain of revisions from the cursor's to the snapshot's, ending at its sequence, below the last representable one |
| `AgentActor.ChainIsGenuineRevision` | crates/omp-control-plane/src/actor.rs:569-587 | on a genuine history the revision chain reaches the end exactly when the cursor carries the revision the actor really had |
| `AgentActor.SuffixReachesIffGenuine` | crates/omp-control-plane/src/actor.rs:560-590 | on a genuine history the check accepts exactly the suffix behind a cursor that was once true |
| `AgentActor.ReplayBufferIsRecentHistory` | crates/omp-control-plane/src/actor.rs:448-463 | in every reachable state the buffer is bounded and gap-free up to the snapshot's sequence, its revisions chain to the snapshot's, and each suffix folds from the matching earlier snapshot to the current one |
| `AgentActor.ReplayCheckDecides` | crates/omp-control-plane/src/actor.rs:483-507 | the early exits, the filter on the buffer and the check together decide exactly whether a cursor is replayable |
| `AgentActor.ActorState.constructor` | crates/omp-control-plane/src/actor.rs:337-349 | an actor starts with its snapshot, an empty buffer, no subscriber and no lease deadline |
| `AgentActor.ActorState.ApplyChange` | crates/omp-control-plane/src/actor.rs:399-426 | an effective change extends the log by exactly one delta that carries the given change, under the next sequence; an empty or refused one leaves snapshot, buffer, queues and deadline untouched |
| `AgentActor.ActorState.PublishEvent` | crates/omp-control-plane/src/actor.rs:428-446 | a publish succeeds exactly while the sequence has room, answers the next sequence and extends the log by exactly the given event under it; otherwise everything is untouched |
| `AgentActor.ActorState.Record` | crates/omp-control-plane/src/actor.rs:448-463 | recording keeps the buffer equal to the newest updates and every queue a gap-free stretch of the history |
| `AgentActor.ActorState.RetainReceivers` | crates/omp-control-plane/src/actor.rs:453-462 | every registered queue with room gets the update, a full one is flagged and dropped, one without receiver is dropped, all others are untouched |
| `AgentActor.ActorState.SubscriptionStartFor` | crates/omp-control-plane/src/actor.rs:483-507 | the answer to a cursor is a replay of the log behind it exactly when the cursor is replayable, and a resync with the current snapshot otherwise |
| `AgentActor.ActorState.Subscribe` | crates/omp-control-plane/src/actor.rs:465-481 | registration and start are one step: the new queue continues exactly where the start ends |
| `AgentActor.ActorState.AcquireInteractionLease` | crates/omp-control-plane/src/actor.rs:509-539 | a grant is answered with the lease that is then shown, and arms the timer at the moment of the grant plus what was granted; a refusal changes nothing |
| `AgentActor.ActorState.ReleaseInteractionLease` | crates/omp-control-plane/src/actor.rs:541-557 | a release that succeeds leaves nothing leased and no timer; the deadline is dropped even when the change cannot be recorded |
| `AgentActor.ActorState.LeaseTimerFired` | crates/omp-control-plane/src/actor.rs:353-359 | the timer clears the deadline and leaves nothing leased, unless the counters are full |
| `InteractionLeases.LeaseStepKeepsInv` | crates/omp-control-plane/src/actor.rs:509-557 | a running timer never undercuts the lease it guards, the lease belongs to the latest grant, and both clocks can represent its expiry |
| `InteractionLeases.UnexpiredLeaseEndsOnlyByItsHolder` | crates/omp-control-plane/src/actor.rs:351-359 | an unexpired lease is ended or replaced only by its own holder: no competing acquire and no older timer can touch it |
| `InteractionLeases.PassingCheckNamesLatestGrant` | crates/ompd/src/controller.rs:132-143 | if the answer check passes for a holder, nobody acquired after that holder's latest grant |
| `InteractionLeases.ExclusiveExactlyWhenSafe` | crates/ompd/src/controller.rs:132-143 | the delayed check is exclusive against every behaviour of the others if and only if the lease that was read still holds or no grant can be recorded any more |
| `InteractionLeases.OthersCanTakeOver` | crates/ompd/src/controller.rs:132-143 | the converse for every state and every other holder: otherwise the other holder can be granted the lease while the stale check still passes |
| `InteractionLeases.StandsExactlyWhenHarmless` | crates/omp-control-plane/src/actor.rs:509-557 | an own action leaves the lease safe if and only if it cannot happen, is a refused or long enough acquire, or uses up a counter |
| `InteractionLeases.ExclusiveExactlyWhenOwnActionsStand` | crates/ompd/src/controller.rs:132-143 | over any events between the two reads, the check is exclusive throughout if and only if every own action of the holder stands, that is, is harmless |
| `InteractionLeases.DelayedCheckIsExclusive` | crates/ompd/src/controller.rs:132-143 | read first, clock later: while own actions stand, every grant in between went to the holder |
| `InteractionLeases.DelayedCheckCanBeStale` | crates/ompd/src/controller.rs:132-143 | from an unclaimed start: the phone acquires and is read, releases, the laptop is granted the lease, and the check on what was read still passes for the phone |
| `LeaseTimers.GrantedExactlyWhen` | crates/omp-control-plane/src/actor.rs:509-539 | an acquire is granted exactly when nobody else has an unexpired lease, both clocks can represent the end and the change can be recorded or is already shown; a grant shows the lease and arms the timer, a refusal changes nothing |
| `LeaseTimers.ReleasedExactlyWhen` | crates/omp-control-plane/src/actor.rs:541-557 | a release succeeds exactly for the holder while the change can be recorded; the holder's timer stops in any case; anyone else changes nothing |
| `LeaseTimers.TimerInvKept` | crates/omp-control-plane/src/actor.rs:351-359 | every event keeps: the deadline and the lease shown are the latest grant's, and with room in the counters there is a deadline exactly while something is leased |
| `LeaseTimers.LeasedExactlyWhileArmed` | crates/omp-control-plane/src/actor.rs:509-557 | over every run from an unclaimed start with room in the counters, the interaction is leased exactly while a timer is armed, set to the moment of the latest grant plus what was granted |
| `LeaseTimers.TimerEndsTheLease` | crates/omp-control-plane/src/actor.rs:353-359 | once that moment has come the timer can fire, and firing leaves nothing leased and no timer if and only if the change can be recorded |
| `LeaseTimers.GrantRunsOut` | crates/omp-control-plane/src/actor.rs:351-359 | from every unclaimed state with room for two changes a grant nobody touches cannot be ended by the timer one tick early, and is ended when its time has passed |
| `Reducer.ReplicatedState.constructor` | crates/omp-control-client/src/reducer.rs:11-15 | a replica starts empty and unflagged |
| `Reducer.ReplicatedState.Apply` | crates/omp-control-client/src/reducer.rs:47-82 | the reducer computes the specified replica and outcome for every frame kind, and keeps each snapshot under its own agent |
| `Reducer.ReplicatedState.ApplySnapshot` | crates/omp-control-client/src/reducer.rs:84-93 | a snapshot frame installs its agents in order, later ones winning, and unflags exactly them |
| `Reducer.ReplicatedState.ApplySequencedDelta` | crates/omp-control-client/src/reducer.rs:55-67 | a delta is applied exactly when nothing rejects it, and a rejection leaves the replica as it was |
| `Reducer.ReplicatedState.MoveSequence` | crates/omp-control-client/src/reducer.rs:95-141 | events and interactions move the sequence exactly when nothing rejects them |
| `Reducer.InstallEffect` | crates/omp-control-client/src/reducer.rs:84-93 | installing replaces and unflags exactly the agents named, and leaves all others alone |
| `Reducer.AcceptedUpdatesApply` | crates/omp-control-client/src/reducer.rs:52-75 | an update the reducer accepts is accepted by `apply_update` with the same resulting snapshot |
| `Reducer.RejectionOnlyFlags` | crates/omp-control-client/src/reducer.rs:68-71 | a rejected update changes no snapshot, flags only its own agent and takes away only that agent's cursor |
| `Reducer.FlaggedExactlyWhen` | crates/omp-control-client/src/reducer.rs:47-141 | exactly when an agent is flagged after a frame: still flagged and no snapshot of it, a gap naming it, or an update of it that does not continue what is held |
| `Reducer.FlaggedStaysFrozen` | crates/omp-control-client/src/reducer.rs:47-141 | over any frames, genuine or not, a flagged agent keeps its snapshot, has no cursor and has every update rejected until a snapshot names it |
| `Reducer.ReplicaKeepsRunTables` | crates/omp-control-client/src/reducer.rs:47-82 | a replica keeps the run table invariant by folding deltas |
| `ReplicationSystem.OfferKeepsFeed` | crates/omp-control-plane/src/actor.rs:448-463 | a recorded update leaves what every subscription still holds a gap-free stretch of the longer log |
| `QueueFanOut.DeliveredIsOffered` | crates/omp-control-plane/src/actor.rs:453-462 | what one recorded update does to a queue object is the offer of the whole-system model |
| `QueueFanOut.ReceivedIsTaken` | crates/omp-control-plane/src/actor.rs:193-204 | what a subscription receives is what the model takes from the front of its queue |
| `ReplicationSystem.StartIsGenuine` | crates/ompd/src/server.rs:533-561 | every frame of a subscription start is a past snapshot, a recorded update or a gap |
| `ReplicationSystem.FeedStepKeepsInv` | crates/ompd/src/server.rs:513-529 | a subscription loop only ever puts recorded updates on the state lane |
| `ReplicationSystem.ReduceKeepsClient` | crates/omp-control-client/src/reducer.rs:47-141 | the reducer applied to a genuine frame leaves every held snapshot genuine |
| `ReplicationSystem.StepKeepsInv` | crates/ompd/src/server.rs:482-716 | every step of the whole system keeps all frames, queues and client snapshots genuine, and histories only grow |
| `ReplicationSystem.HistoryWasCurrent` | crates/omp-control-plane/src/actor.rs:337-396 | every entry of an actor's history was its current snapshot at some moment of the run |
| `ReplicationSystem.ReplicaIsNeverWrong` | crates/ompd/src/server.rs:482-716 | over every run each snapshot a client holds, flagged or not, was the agent's authoritative snapshot at the event sequence it carries |
| `Reconvergence.EmitsAll` | crates/ompd/src/server.rs:533-561 | with room on the lanes a start is emitted completely, each frame on its lane, in order |
| `Reconvergence.WritesAll` | crates/ompd/src/server.rs:678-716 | the writer empties the lanes in priority order: control, responses, state |
| `Reconvergence.ReplayCatchesUp` | crates/omp-control-client/src/reducer.rs:47-141 | replaying the log from where an unflagged client stands ends at the current snapshot, unflagged |
| `Reconvergence.StartRestores` | crates/omp-control-plane/src/actor.rs:465-507 | the start that answers the client's own cursor, in the writer's order, is enough to reach the current snapshot |
| `Reconvergence.OneRoundReconverges` | crates/ompd/src/server.rs:482-594 | from every reachable state with an idle link, asking, emitting, writing and delivering in turn leaves the client unflagged and equal to the actor |
| `SubscriptionInFlight.EmitFlow` | crates/ompd/src/server.rs:533-561 | emitting keeps the order of an agent's frames on their way, unless one of them overtakes on the control lane or meets a full state lane |
| `SubscriptionInFlight.WriteFlow` | crates/ompd/src/server.rs:678-716 | the writer's priority order keeps the order of an agent's frames |
| `SubscriptionInFlight.UpdateDecides` | crates/omp-control-client/src/reducer.rs:47-159 | a recorded update brings a client forward exactly if it is unflagged and in step right before it, and flags any other |
| `SubscriptionInFlight.StepKeepsTrack` | crates/ompd/src/server.rs:482-716 | every step of the whole system, whatever it is, keeps the account of what is on its way to the client and what the client will hold |
| `SubscriptionInFlight.ClientFollowsItsStart` | crates/ompd/src/server.rs:482-716 | over every run: a client nothing can reach keeps what it has; after the start of its latest subscription a client is exactly as far as the live updates it has taken if the start left it in step, and was flagged by the first of them otherwise |
| `SubscriptionRuns.FollowsLog` | crates/omp-control-client/src/reducer.rs:47-159 | a stretch of the log brings a client to its end exactly if the client is in step at its beginning |
| `SubscriptionRuns.AnswerRestoresExactlyWhen` | crates/ompd/src/server.rs:533-561 | once an answer and everything before it has arrived, the client is in step with the moment of the answer if and only if the answer fits |
| `SubscriptionRuns.ReplayFitsExactlyWhen` | crates/ompd/src/server.rs:482-513 | with updates of an older subscription on their way, a replay fits exactly if it begins where they end |
| `SubscriptionExamples.DoubledUpdateDoesNotFit` | crates/omp-control-client/src/client.rs:561-575 | a run in which an agent is turned off and on again, an update of it is on its way twice and the answer does not fit |
| `SubscriptionRuns.AnswerReachesClientExactlyWhen` | crates/ompd/src/server.rs:482-607 | from every reachable state in which a subscription is answered, with older frames on their way or not, over every undisturbed interleaving: once the last frame of the start is taken, the client is unflagged and exactly as far as its live updates if and only if the answer fitted |
| `SubscriptionRuns.OwnRepairRestores` | crates/omp-control-client/src/client.rs:626-651 | a client that asks again by itself after a gap or a rejection is brought back, over every undisturbed interleaving, whatever is still on its way to it |
| `SubscriptionRuns.StartSurvivesInterleaving` | crates/ompd/src/server.rs:482-607 | from every reachable state with nothing of the agent on its way, the client asks with its own cursor; over every undisturbed interleaving it is unflagged and at or after the state it asked for once the last frame of the start is taken |
| `SubscriptionRuns.StartCanFinish` | crates/ompd/src/server.rs:482-594 | such runs exist: from a fresh subscription, taking, emitting, writing and delivering in turn is undisturbed and brings the whole start to the client |
| `SubscriptionRuns.StartIsCutExactlyWhen` | crates/ompd/src/server.rs:533-561 | a start is cut if and only if its next frame goes to the state lane and the lane is full; the rest is abandoned with it |
| `SubscriptionRuns.OnlyACutLosesFrames` | crates/ompd/src/server.rs:533-561 | emitting loses frames of an agent exactly when a start is cut, and then all that remained |
| `SubscriptionRuns.HoleIsCaught` | crates/omp-control-client/src/reducer.rs:144-159 | an update that skips one the client has not seen is rejected, flags the agent, changes no snapshot and makes the client ask again |
| `SubscriptionRuns.CutStartIsCaught` | crates/ompd/src/server.rs:533-561 | from every reachable state in which a start is cut and leaves the client behind: over every later run, gaps and lost connections included, a client that has taken what was sent is where the cut left it, or flagged, until another answer comes |
| `SubscriptionRuns.CutReplayIsCaught` | crates/ompd/src/server.rs:540-545 | for a replay that would have restored the client, where the cut left it is exactly the snapshot at the cut, unflagged |
| `SubscriptionExamples.ReplayCanBeCut` | crates/ompd/src/server.rs:533-561 | a run in which an agent is turned on again after two updates, with a state lane for one frame, and a replay that would restore the client is cut |
| `SubscriptionRuns.CutIsHarmlessExactlyWhen` | crates/ompd/src/server.rs:540-545 | after a cut the client goes on in step if and only if what was sent already brings it to the end of the start |
| `SubscriptionLoops.OneLoopPerAgent` | crates/ompd/src/server.rs:507-529 | over every run an agent has at most one loop on a connection that has not been told to end |
| `SubscriptionLoops.UnsubscribeEndsTheLoop` | crates/ompd/src/server.rs:507-529 | after an unsubscribe no loop serves the agent until a later request for it is answered |
| `SubscriptionLoops.LoopGivesUpExactlyWhen` | crates/ompd/src/server.rs:512-527 | a loop gives up exactly when it saw the overflow flag, or found an empty queue after an overflow, or could not place an update on the state lane |
| `SubscriptionLoops.SlowConsumerIsTold` | crates/ompd/src/server.rs:596-607 | a loop that gave up sends the client a gap with the current revision and sequence, which flags the agent and makes the client ask again |
| `Delivery.EveryUpdateWasAsked` | crates/omp-control-plane/src/actor.rs:399-446 | over every run each entry of an agent's log was asked of its actor by exactly the event that recorded it |
| `Delivery.UpdateIsReported` | crates/omp-control-client/src/reducer.rs:47-159 | an accepted update is reported once: a UI request, and only that, as an interaction with its own request, every other event with its own payload, a change as a change |
| `Delivery.OtherFramesAreReported` | crates/omp-control-client/src/reducer.rs:47-159 | a snapshot is reported agent by agent in its order, a gap as the agent that needs a new one |
| `Delivery.RejectionSaysWhy` | crates/omp-control-client/src/reducer.rs:62-159 | each reason for a rejection is given exactly in its case: no snapshot, flagged, sequence exhausted, sequence not the next, delta refused |
| `Delivery.ReportedEffectWasAsked` | crates/ompd/src/server.rs:563-594 | over every run what a client reports for an update was asked of that agent's actor in that run, with the same payload, under the reported sequence |
| `Delivery.ChangeReachesTheClient` | crates/ompd/src/server.rs:512-527 | from every state in which a client follows an agent, a change to a new value is on its screen three steps after the actor handled it |
| `Delivery.EventReachesTheClient` | crates/ompd/src/server.rs:512-527 | and an event published then is the frame the client accepts, with exactly its payload and sequence |
| `Delivery.ClientCanFollow` | crates/ompd/src/server.rs:482-530 | such states are reached by subscribing once |
| `Delivery.RepairIsRequested` | crates/omp-control-client/src/client.rs:610-651 | the client asks for an agent again, without a cursor, exactly when a gap or an update of that agent leaves it flagged |
| `Delivery.RequestIsAnsweredWith` | crates/ompd/src/server.rs:532-561 | a request without a cursor is answered with the snapshot, one that can be replayed with its updates in order, any other with the gap on the control lane and then the snapshot |
| `RpcFrames.NewChunk` | crates/omp-rpc/src/types.rs:328-377 | construction succeeds exactly for canonical text of a payload within the size rules, and stores what it was given |
| `RpcFrames.RpcFrameDecoder.constructor` | crates/omp-rpc/src/frame.rs:66-73 | a decoder starts with nothing pending and the given limit |
| `RpcFrames.RpcFrameDecoder.Push` | crates/omp-rpc/src/frame.rs:84-156 | a push computes the specified result and state, the state after each error included |
| `RpcFrames.PushKeepsBuffer` | crates/omp-rpc/src/frame.rs:98-155 | the buffer is exactly the payloads so far, within the declared length and the limit; a message comes out only after exactly `count` in-order chunks totalling the declared length |
| `RpcFrames.BufferAlwaysExact` | crates/omp-rpc/src/frame.rs:84-156 | over any pushes up to the first error the buffer stays exact and bounded |
| `RpcFrames.PushAnswersExactly` | crates/omp-rpc/src/frame.rs:84-156 | in every state that holds the chunks of an unfinished sequence: another message passes exactly if no sequence is open and is an error inside one; a chunk is taken, completes its message or is refused exactly by the rules, with the first rule broken as the answer |
| `RpcFrames.LimitIsAsAnnounced` | crates/omp-rpc/src/frame.rs:92-95 | over any error-free pushes the limit in force is the one the last ready message announced |
| `RpcFrames.PiecesAreValidChunks` | crates/omp-rpc/src/types.rs:328-377 | every length from 1 MiB to 64 MiB splits into 4 to 256 pieces within the size rules |
| `RpcFrames.PiecesAreAccepted` | crates/omp-rpc/src/types.rs:334-377 | the constructor accepts the text of each piece and keeps the piece |
| `RpcFrames.JoinOfSplit` | crates/omp-rpc/tests/wire.rs:358-381 | the first k pieces joined are the first k pieces' worth of bytes |
| `RpcFrames.SplitThenReassemble` | crates/omp-rpc/src/frame.rs:84-156 | splitting an encoded message and pushing its chunks yields that message once and an empty decoder |
| `StdoutPipeline.NewlineInConcat` | crates/omp-runtime/src/runtime.rs:851-854 | the first newline of a concatenation is the first part's, if it has one |
| `StdoutPipeline.NextLineExactly` | crates/omp-runtime/src/runtime.rs:835-866 | a stream that begins with a line yields exactly that line if it fits the limit with its newline; without a newline it is too large, failed, ended or cut off |
| `StdoutPipeline.ReadLimitedLine` | crates/omp-runtime/src/runtime.rs:835-866 | over arbitrary read boundaries the result is the next line of the flat byte stream, or the same error, and exactly the rest is left |
| `StdoutPipeline.ReadStdout` | crates/omp-runtime/src/runtime.rs:753-792 | the reader reports a list that depends only on the byte stream, not on the reads, and stops when the actor is gone |
| `StdoutPipeline.ReportEndsOnce` | crates/omp-runtime/src/runtime.rs:753-792 | a report is the frames that came out followed by exactly one reason why no more will |
| `StdoutPipeline.LinesArePushed` | crates/omp-runtime/src/runtime.rs:753-792 | lines that fit are consumed one by one and their results come out in order |
| `StdoutPipeline.PhysicalDecodes` | crates/omp-rpc/src/frame.rs:75-156 | a message rendered whole or in chunks decodes to that one message |
| `StdoutPipeline.PipelineIsTransparent` | crates/omp-runtime/src/runtime.rs:753-792 | any list of messages rendered within the limits is reported as exactly that list, then the end |
| `StdoutPipeline.ReadWritten` | crates/omp-runtime/src/runtime.rs:753-866 | the imperative pipeline on any partition into reads reports exactly the written messages in order, as many as the actor takes |
| `RuntimeActor.IdsAreDistinct` | crates/omp-runtime/src/runtime.rs:132-135 | the first 2^64 calls carry different identifiers |
| `RuntimeActor.Actor.constructor` | crates/omp-runtime/src/runtime.rs:391-392 | the actor starts with nothing pending and an open reader |
| `RuntimeActor.Actor.AskChild` | crates/omp-runtime/src/runtime.rs:401-424 | a prompt is shown as submitted first; a request is answered at once when its frame is too large, and its prompt fails; it stops the actor when the write fails, and is registered only once written |
| `RuntimeActor.Actor.WriteMessage` | crates/omp-runtime/src/runtime.rs:428-442 | a plain send is answered at once, and a broken pipe stops the actor |
| `RuntimeActor.Actor.CancelRequest` | crates/omp-runtime/src/runtime.rs:425-427 | a cancel drops exactly the registered call |
| `RuntimeActor.Actor.TakeFrame` | crates/omp-runtime/src/runtime.rs:594-669 | a frame first moves the phase of the prompt shown; a response with a registered identifier goes to that caller, everything else is published |
| `RuntimeActor.Actor.FailPending` | crates/omp-runtime/src/runtime.rs:694-701 | every registered caller gets exactly one more answer, that the runtime stopped, and nothing is pending |
| `RuntimeActor.Actor.Conclude` | crates/omp-runtime/src/runtime.rs:460-503 | the last event is published, the caller of the shutdown answered and every registered caller failed |
| `RuntimeActor.Actor.GiveUp` | crates/omp-runtime/src/runtime.rs:497-503 | a broken transport kills the child before the failure is published and every registered caller failed |
| `RuntimeActor.Actor.Select` | crates/omp-runtime/src/runtime.rs:393-458 | one turn of the main loop, for every message and every way to stop |
| `RuntimeActor.Actor.AwaitChild` | crates/omp-runtime/src/runtime.rs:506-560 | one turn of the shutdown loop |
| `RuntimeActor.Actor.Drain` | crates/omp-runtime/src/runtime.rs:562-592 | one turn of the draining loop |
| `RuntimeActor.Actor.RunActor` | crates/omp-runtime/src/runtime.rs:380-504 | the loops over any input equal the run that the results are about |
| `RuntimeActor.RuntimeInvAlways` | crates/omp-runtime/src/runtime.rs:380-504 | over any interleaving every call is waiting, answered once or cancelled, exactly one of these; no frame reaches two callers or a caller and the subscribers; published frames are the others in order |
| `RuntimeActor.AnswerIsTheCallersOwn` | crates/omp-runtime/src/runtime.rs:594-612 | a caller hears one reply at most, and a response it hears is a frame the child wrote with that caller's identifier |
| `RuntimeActor.EndedLeavesNobodyWaiting` | crates/omp-runtime/src/runtime.rs:503-504 | when the actor has ended nothing is pending and every call was cancelled or has exactly one answer |
| `RuntimeActor.FrameGoesOneWay` | crates/omp-runtime/src/runtime.rs:594-612 | a frame goes to the one waiting caller it names, or to the subscribers when it names none, never both |
| `RuntimeActor.FramesAreHandledInOrder` | crates/omp-runtime/src/runtime.rs:448-456 | the frames handled are those read, in order, all of them until the actor ends |
| `RuntimeActor.ServingExactlyWhenRunning` | crates/omp-runtime/src/runtime.rs:393-458 | the main loop runs exactly until the first shutdown, exit of the child, failure of the reader or broken write |
| `RuntimeActor.SendIsAnswered` | crates/omp-runtime/src/runtime.rs:428-442 | a plain send that the actor takes is answered in that turn with what became of its write, behind the answers to earlier sends, and keeps that answer |
| `RuntimeActor.SendsAreAnsweredOnce` | crates/omp-runtime/src/runtime.rs:428-442 | over any run, whoever sends and however often, a sender hears exactly one answer for each plain send that came while callers were served, in their order, and nothing else |
| `RuntimeActor.ShutdownIsAnsweredOnce` | crates/omp-runtime/src/runtime.rs:460-496 | over any run the caller whose shutdown ended the main loop hears exactly once how the runtime ended, as its last event says, and nobody else hears of an end |
| `RuntimeActor.KilledExactlyWhen` | crates/omp-runtime/src/runtime.rs:497-560 | killing the child is asked for if and only if its transport broke while callers were served or its shutdown took too long |
| `RuntimeActor.PromptIsTheLatest` | crates/omp-runtime/src/runtime.rs:401-424 | over any run the prompt shown is the last one that reached the actor while callers were served |
| `RuntimeActor.FinishedPromptStays` | crates/omp-runtime/src/runtime.rs:614-669 | a finished prompt keeps its phase until another prompt comes or a frame names it; session events do not move it |
| `RuntimeActor.UnsentPromptStaysSubmitted` | crates/omp-runtime/src/runtime.rs:409-422 | a prompt whose write breaks the pipe stays submitted for good |
| `RuntimeRuns.EndedExactlyWhen` | crates/omp-runtime/src/runtime.rs:393-592 | the actor has ended exactly when some input ended it |
| `RuntimeRuns.EndSaysWhy` | crates/omp-runtime/src/runtime.rs:460-503 | the input that ended it says why in the last event, whatever comes later |
| `RuntimeRuns.TurnSays` | crates/omp-runtime/src/runtime.rs:393-612 | every turn of every loop publishes exactly the frame nobody waits for, what broke while stdout was drained, and the last word |
| `RuntimeRuns.ForcedExactlyWhenTimedOut` | crates/omp-runtime/src/runtime.rs:541-560 | the exit to come is marked as forced exactly if the shutdown timed out |
| `RuntimeRuns.EveryCallMeetsItsFate` | crates/omp-runtime/src/runtime.rs:393-504 | over any interleaving each call waits, was cancelled or heard one reply, as the inputs say: its own failed write, the first frame that names it, or the end |
| `RuntimeRuns.CancelledExactlyWhen` | crates/omp-runtime/src/runtime.rs:425-427 | a call is cancelled exactly by a cancellation that finds it waiting while callers are served |
| `RuntimeRuns.CancelledHearsNothing` | crates/omp-runtime/src/runtime.rs:594-612 | after that its caller hears nothing, ever, and a frame that names it is published to the subscribers |
| `RuntimePrompts.OneMoreFrame` | crates/omp-runtime/src/runtime.rs:614-669 | a frame that decides a prompt puts it there wherever it was; any other moves it at most from submitted to running and from there to completed by the agent |
| `RuntimePrompts.PromptShowsItsFrames` | crates/omp-runtime/src/runtime.rs:401-424 | over any run the phase shown of the latest prompt follows from the frames handled since: the last one that decides it and the agent's start and end after that; nothing else moves it |
| `OperationStore.Store.Open` | crates/ompd/src/persistence/store.rs:682-698 | opening the store recovers operations and agent rows, unless the clock does not fit |
| `OperationStore.RecoveryLeavesNothingPending` | crates/ompd/src/persistence/store.rs:682-698 | after opening no operation is pending and no agent busy: pending records are indeterminate under their own request, busy agents interrupted without process, run or failure and with the time they were created; settled rows are unchanged, and opening again changes nothing |
| `OperationStore.Store.ClaimOperation` | crates/ompd/src/persistence/store.rs:550-605 | claim computes the specified record and answer for every stored state |
| `OperationStore.Store.CompleteOperation` | crates/ompd/src/persistence/store.rs:607-632 | completing succeeds exactly on a pending record at a time that fits, and then stores the outcome in that record and changes nothing else; otherwise nothing changes |
| `OperationStore.Store.PruneOperations` | crates/ompd/src/persistence/store.rs:634-664 | the two deletes together are the specified prune, and the count returned is the number of records gone |
| `OperationStore.PruneKeepsTheNewest` | crates/ompd/src/persistence/store.rs:634-664 | prune leaves exactly the newest records of the device not older than the cutoff, up to the count, unchanged, and no other device is touched |
| `OperationStore.SettledUntilPruned` | crates/ompd/src/persistence/store.rs:550-664 | a completed or indeterminate record reads back the same until a prune deletes it |
| `OperationStore.ExecutedTwiceOnlyAfterPrune` | crates/ompd/src/persistence/store.rs:560-576 | a key is handed out for execution twice only if a prune deleted its record in between |
| `OperationStore.RetriesAfterRestart` | crates/ompd/src/persistence/store.rs:682-698 | after a restart a pending record answers indeterminate and a completed one replays its outcome, until pruned |
| `OperationRuns.RecordedExactlyWhenKnown` | crates/ompd/src/persistence/store.rs:550-664 | from an empty store a key has a record exactly when it was claimed at a time that fits and not pruned since |
| `OperationRuns.ExecutesExactlyWhen` | crates/ompd/src/persistence/store.rs:560-576 | a claim hands its key out exactly when its time fits and no claim of the key is still on record |
| `OperationRuns.LaterClaimsAnswer` | crates/ompd/src/persistence/store.rs:578-605 | every later claim until a prune: another request conflicts; the same one is in progress until the key settles, then replays exactly the first completion, or is indeterminate if a restart came first |
| `OperationRuns.PendingExactlyWhenOutstanding` | crates/ompd/src/persistence/store.rs:560-632 | a record is pending exactly when its key was handed out and neither settled nor pruned since |
| `OperationRuns.CompletionTakenExactlyWhen` | crates/ompd/src/persistence/store.rs:607-632 | a completion is taken exactly when its time fits and its key is outstanding, and stores its outcome in that one record; otherwise nothing changes |
| `OperationRuns.CompletedOnceReplaysAlways` | crates/ompd/src/persistence/store.rs:550-632 | the first completion of an outstanding key succeeds, and every later claim of the same request replays it until pruned |
| `ClientRequests.TextIsInjective` | crates/omp-control-client/src/client.rs:1071-1095 | two generated identifiers with the same text are the same identifier |
| `ClientRequests.ClientRunner.constructor` | crates/omp-control-client/src/client.rs:180-183 | the client starts with an empty table |
| `ClientRequests.ClientRunner.NextId` | crates/omp-control-client/src/client.rs:1087-1095 | an identifier is drawn once, and none once the counter is full |
| `ClientRequests.ClientRunner.InsertPending` | crates/omp-control-client/src/client.rs:689-707 | a submission is filed under the next key with its payload and its operation identifier, drawn or supplied |
| `ClientRequests.ClientRunner.SendPending` | crates/omp-control-client/src/client.rs:709-734 | a request is sent under a fresh identifier and registered only once the socket took the frame |
| `ClientRequests.ClientRunner.CompleteResponse` | crates/omp-control-client/src/client.rs:757-774 | a response resolves exactly the entry registered under its identifier, whatever kind of request that is, and an unknown one resolves nothing |
| `ClientRequests.ClientRunner.MarkPendingDisconnected` | crates/omp-control-client/src/client.rs:815-820 | losing the connection forgets every sent identifier and no request |
| `ClientRequests.ClientRunner.FailAllPending` | crates/omp-control-client/src/client.rs:846-851 | stopping answers every pending request once and leaves none |
| `ClientRequests.ClientRunner.SendSubscriptions` | crates/omp-control-client/src/client.rs:469-473 | the agents to follow are asked for in the order of their names, each once, with the cursor the replica has; a failing send leaves the first of them asked for |
| `ClientRequests.ClientRunner.SendAllPending` | crates/omp-control-client/src/client.rs:474-477 | every pending request is sent exactly once, in key order, with its original payload and operation identifier |
| `ClientRequests.ClientRunner.InitializeConnection` | crates/omp-control-client/src/client.rs:461-479 | a new connection asks for every agent to follow in the order of their names, once, with the cursor the replica has, then sends every pending request exactly once, in key order, with its original payload and operation identifier; the first failing send stops it |
| `ClientRequests.ClientStepKeepsInv` | crates/omp-control-client/src/client.rs:188-279 | every step keeps the table: submissions conserved, index and entries pointing at each other, identifiers fresh |
| `ClientRequests.RequestsAreConserved` | crates/omp-control-client/src/client.rs:188-279 | over any run each submission is pending or answered once, the index mirrors the live connection and is empty offline, and a stopped client has nothing pending |
| `ClientRequests.ResponseAnswersItsSender` | crates/omp-control-client/src/client.rs:757-774 | a response answers only the submission that was sent under its identifier |
| `RequestAnswers.IndexedExactlyWhen` | crates/omp-control-client/src/client.rs:709-774 | over any run an identifier stands for the submission it was sent for on the live connection, until that is answered, and for nothing else |
| `RequestAnswers.ResponseAnswersExactlyWhen` | crates/omp-control-client/src/client.rs:757-774 | a response arriving online answers a submission exactly when that was sent under its identifier on the live connection and is unanswered; then it has that one answer, is no longer pending, and nothing else changes; a response that answers nothing changes nothing |
| `RequestAnswers.OneSubmissionPerIdentifier` | crates/omp-control-client/src/client.rs:709-734 | no identifier is put on the wire twice |
| `RequestAnswers.SpentIdentifierAnswersNothing` | crates/omp-control-client/src/client.rs:757-774 | once its submission is answered or its connection gone, a response that names the identifier changes nothing at any later time |
| `RequestAnswers.AnsweredBy` | crates/omp-control-client/src/client.rs:757-851 | only the response to a submission, or stopping, answers it, with what the response says or that the client stopped |
| `RequestAnswers.AnswersAreFinal` | crates/omp-control-client/src/client.rs:757-774 | an answer once given stays what it is |
| `RequestAnswers.StoppingAnswersThePending` | crates/omp-control-client/src/client.rs:846-851 | stopping answers every pending submission, and no other, with "stopped" |
| `RequestAnswers.SubmissionsAreKept` | crates/omp-control-client/src/client.rs:689-707 | over any run submission k is the k-th one taken, with the payload and the name it was submitted with |
| `RequestAnswers.FramesSayWhatWasSubmitted` | crates/omp-control-client/src/client.rs:709-734 | every frame put on the wire says the payload and carries the operation identifier of its submission |
| `AtMostOnce.ClaimFacts` | crates/ompd/src/persistence/store.rs:550-605 | a claim hands out execution only for an unknown key and replays only the outcome on record |
| `AtMostOnce.DaemonStepKeepsInv` | crates/ompd/src/server.rs:400-461 | every daemon step keeps: at most one execution per key, one job per key, a completed record holds its execution's outcome |
| `AtMostOnce.HeardAnswer` | crates/omp-control-client/src/client.rs:757-774 | the submission a reply resolves is the one its frame was sent for |
| `AtMostOnce.WorldInvAlways` | crates/ompd/src/server.rs:357-461 | over any run of client, connections, daemon and crashes the joint invariant holds |
| `AtMostOnce.MutationsExecuteAtMostOnce` | crates/ompd/src/server.rs:357-461 | an operation executes at most once; a mutation answered with a result executed exactly once, with the submitted payload, and the answer is the recorded outcome, for drawn and for supplied identifiers; submissions with drawn identifiers never share an operation |
| `MutationAnswers.UnseenMutationExecutes` | crates/ompd/src/server.rs:410-436 | a mutation the daemon has not seen is executed, recorded and answered with what the controller returned |
| `MutationAnswers.UndisturbedMutationIsAnswered` | crates/ompd/src/server.rs:400-461 | from every reachable world with a connection and an unknown key: an undisturbed mutation is executed exactly once with its own payload, and its caller receives exactly what that returned |
| `MutationAnswers.RetryIsAnswered` | crates/ompd/src/server.rs:437-453 | a retry on whatever connection is answered with what is on record, in particular the outcome of the execution whose answer was lost, and nothing is executed again |
| `MutationAnswers.RetryAfterCrash` | crates/ompd/src/persistence/store.rs:682-698 | after a crash a retry is told the recorded outcome, or that nobody knows if there was none; it is never executed again |
| `MutationAnswers.FirstMutationIsAnswered` | crates/ompd/src/server.rs:400-461 | from the very beginning: one connection, one mutation, one execution, one answer |
| `PairingStore.Transaction.UpdateConsumed` | crates/ompd/src/persistence/store.rs:501-511 | the update changes a row exactly when the grant is there and unconsumed |
| `PairingStore.Transaction.InsertRow` | crates/ompd/src/persistence/store.rs:518-540 | the insert fails exactly on an existing device |
| `PairingStore.Store.CreatePairing` | crates/ompd/src/persistence/store.rs:379-424 | a grant is created with its checked expiry, or nothing changes |
| `PairingStore.Store.ConsumePairing` | crates/ompd/src/persistence/store.rs:426-470 | consume follows the specification under every fault |
| `PairingStore.Store.ExchangePairing` | crates/ompd/src/persistence/store.rs:472-548 | exchange commits the spent grant and the new device together or not at all, under every fault |
| `PairingStore.Store.RevokeDevice` | crates/ompd/src/persistence/store.rs:368-377 | a device is revoked once, and says whether this call did it |
| `PairingStore.Store.AuthenticateDevice` | crates/ompd/src/persistence/store.rs:330-366 | only the token of a device that is not revoked authenticates it; a wrong token learns nothing about the revocation |
| `PairingStore.AbortedExchangeChangesNothing` | crates/ompd/src/persistence/store.rs:472-548 | an exchange that reports an error left both tables as they were, and only such an exchange does |
| `PairingStore.ExchangeCommitsIff` | crates/ompd/src/persistence/store.rs:486-541 | an exchange commits exactly with the right secret, an unconsumed grant, before the expiry, with a fresh device and no fault |
| `PairingStore.StoreStepKeepsInv` | crates/ompd/src/persistence/store.rs:330-548 | every call keeps the books: spent grants are the used ones, devices issued match their grants |
| `PairingStore.GrantsAreConserved` | crates/ompd/src/persistence/store.rs:379-548 | over any run with any faults a grant issues one device at most; those consumed by an exchange have exactly one, with the grant's scopes, issued before the expiry |
| `PairingStore.SpentGrantStaysSpent` | crates/ompd/src/persistence/store.rs:426-548 | once a grant is consumed, even if no answer arrived, every later attempt is refused and changes nothing |
| `PairedDevices.GrantIsAsCreated` | crates/ompd/src/persistence/store.rs:379-424 | a grant is in the store exactly when it was created with times that fit, and keeps the name, scopes, secret and times of its creation |
| `PairedDevices.SpentExactlyWhenUsed` | crates/ompd/src/persistence/store.rs:426-548 | a grant is spent exactly when a consume or an exchange of it was not refused |
| `PairedDevices.ConsumeSucceedsExactlyWhen` | crates/ompd/src/persistence/store.rs:426-470 | over every run a consume goes through exactly when the grant is open for that secret and no statement fails |
| `PairedDevices.ExchangeSucceedsExactlyWhen` | crates/ompd/src/persistence/store.rs:472-548 | over every run an exchange goes through exactly when the grant is open, its device new and no statement fails; it adds the one device with the grant's name and scopes, and answers with its credential |
| `PairedDevices.DeviceIsAsIssued` | crates/ompd/src/persistence/store.rs:330-377 | a device keeps everything but when it was last seen, and is revoked exactly by revoking it |
| `PairedDevices.CredentialOpensItsDevice` | crates/ompd/src/persistence/store.rs:330-366 | the credential an exchange returned authenticates that device, with its name, platform and the grant's scopes, exactly until it is revoked; no other token does |
| `PairedDevices.FirstRevocationCounts` | crates/ompd/src/persistence/store.rs:368-377 | the first revocation of a paired device takes effect at its time and says so; every later one changes nothing |

## Left out

- Actor incarnations: an agent stays registered; stopping and launching again restarts the counters, and cursors carry no incarnation, so claims about histories hold within one incarnation.
- Lifecycle orchestration in the daemon's controller (launch, stop, session switch, event bridge) and persistence of agent and session rows, apart from their recovery on opening.
- Reconvergence.OneRoundReconverges: is about one schedule on an idle link; other schedules, and links that are not idle, are the subject of SubscriptionRuns.AnswerReachesClientExactlyWhen.
- SubscriptionRuns.AnswerReachesClientExactlyWhen: is about runs in which, after the answer, the connection is not lost, no other subscription to the agent is answered, and the order of what is on its way is not broken: a start that is cut is the subject of CutStartIsCaught; after a gap, or an update pushed by the aborted loop of an older subscription, ClientFollowsItsStart counts anew.
- SubscriptionRuns.CutStartIsCaught: excludes updates pushed by the aborted loop of an older subscription, and a connection lost before the client has taken what was sent of the start.
- Startup negotiation of a child, its stderr and exit codes.
- Liveness: nothing says that a dropped snapshot is eventually sent again, or that a client eventually reconnects.
- Handshake, credentials, scope checks, version negotiation, back-off delays, heartbeats and slow-send timeouts.
- Status changes, state notifications and protocol errors that the client broadcasts to its observers.
- The moment between drawing an operation identifier and the client's loop taking the submission: both are one step.
- Pruning in the end-to-end result: `prune_operations` has no caller in the daemon; what it would allow is stated by `ExecutedTwiceOnlyAfterPrune`.
- Foreign keys between operations and devices: devices are never deleted.
- The content of runtime messages other than chunk and ready frames, responses, prompt results, agent start and end, and extension UI requests.
