/** The client's table of unanswered requests: stable across reconnects, fresh request identifiers per connection. */
module ClientRequests {
  import opened Prelude
  import ControlState
  import Reducer

  datatype IdKind = RequestKind | OperationKind

  /** A generated identifier; its text is the kind, the client's random prefix and the counter. */
  datatype Id = Id(kind: IdKind, counter: nat)

  datatype Answer = Answered(outcome: string) | Refused(code: string) | ClientStopped

  /** What makes a mutation recognisable to the daemon: drawn by the client, or chosen by the caller. */
  datatype OperationName = Generated(id: Id) | Supplied(text: string)

  datatype PendingRequest = PendingRequest(
    payload: string, operationId: Option<OperationName>, sentRequestId: Option<Id>)

  datatype Envelope = Envelope(requestId: Id, operationId: Option<OperationName>, payload: string)

  datatype SubscribeFrame = SubscribeFrame(
    agentId: ControlState.AgentId, cursor: Option<ControlState.SubscriptionCursor>)

  /** What was ever submitted, answered and sent, by submission number. */
  datatype Ledger = Ledger(
    submitted: nat, payloads: map<nat, string>, operations: map<nat, OperationName>,
    answers: map<nat, seq<Answer>>, sentAs: map<Id, nat>)

  datatype Table = Table(
    pending: map<nat, PendingRequest>, responseIndex: map<Id, nat>, nextPending: u64, counter: u64, ledger: Ledger)

  const KEYS: nat := U64_MAX + 1

  // ----- identifiers -----

  function Text(prefix: string, id: Id): string {
    (if id.kind == RequestKind then "request-" else "operation-") + prefix + "-" + Digits(id.counter)
  }

  function NameText(prefix: string, name: OperationName): string {
    match name
    case Generated(id) => Text(prefix, id)
    case Supplied(text) => text
  }

  /** Two identifiers of one client have the same text only if they are the same identifier. */
  lemma TextIsInjective(prefix: string, a: Id, b: Id)
    requires Text(prefix, a) == Text(prefix, b)
    ensures a == b
  {
    assert Text(prefix, a)[0] == if a.kind == RequestKind then 'r' else 'o';
    assert Text(prefix, b)[0] == if b.kind == RequestKind then 'r' else 'o';
    var head := (if a.kind == RequestKind then "request-" else "operation-") + prefix + "-";
    assert Text(prefix, a)[|head|..] == Digits(a.counter);
    assert Text(prefix, b)[|head|..] == Digits(b.counter);
    DigitsAreInjective(a.counter, b.counter);
  }

  // ----- what each operation does to the table -----

  /** `wrapping_add` on the key counter: a key still in use after 2^64 submissions would be overwritten. */
  function Insert(t: Table, payload: string, operationId: Option<OperationName>): Table {
    var number := t.ledger.submitted;
    t.(pending := t.pending[t.nextPending := PendingRequest(payload, operationId, None)],
       nextPending := if t.nextPending == U64_MAX then 0 else t.nextPending + 1,
       ledger := t.ledger.(
         submitted := number + 1,
         payloads := t.ledger.payloads[number := payload],
         operations := if operationId.Some? then t.ledger.operations[number := operationId.value]
                       else t.ledger.operations))
  }

  /** Draw an identifier; the counter never wraps. */
  function Draw(t: Table, kind: IdKind): (Table, Option<Id>) {
    if t.counter == U64_MAX then (t, None)
    else (t.(counter := t.counter + 1), Some(Id(kind, t.counter)))
  }

  /** Send one pending request under a fresh identifier; it is registered only once the socket took it. */
  function Send(t: Table, key: nat, taken: bool): (Table, Option<Envelope>) {
    var (drawn, id) := Draw(t, RequestKind);
    if id.None? || key !in drawn.pending || !taken then (drawn, None)
    else
      var p := drawn.pending[key];
      (drawn.(pending := drawn.pending[key := p.(sentRequestId := id)],
              responseIndex := drawn.responseIndex[id.value := key],
              ledger := drawn.ledger.(sentAs := drawn.ledger.sentAs[id.value := key])),
       Some(Envelope(id.value, p.operationId, p.payload)))
  }

  /** A response resolves the entry registered under its identifier; an unknown identifier resolves nothing. */
  function Resolve(t: Table, requestId: Id, answer: Answer): Table {
    if requestId !in t.responseIndex then t
    else
      var key := t.responseIndex[requestId];
      var unindexed := t.(responseIndex := t.responseIndex - {requestId});
      if key !in t.pending then unindexed
      else unindexed.(pending := t.pending - {key},
                      ledger := t.ledger.(answers := Appended(t.ledger.answers, key, answer)))
  }

  function MarkDisconnected(t: Table): Table {
    t.(responseIndex := map[], pending := map k | k in t.pending :: t.pending[k].(sentRequestId := None))
  }

  function FailPending(t: Table): Table {
    t.(responseIndex := map[], pending := map[],
       ledger := t.ledger.(answers := AppendedAll(t.ledger.answers, t.pending.Keys, ClientStopped)))
  }

  // ----- the runner -----

  /** The socket of one connection; `room` is how many more frames it takes before it fails. */
  class Socket {
    var sent: seq<Envelope>
    var subscribed: seq<SubscribeFrame>
    var room: nat

    constructor (room: nat)
      ensures sent == [] && subscribed == [] && this.room == room
    {
      sent, subscribed, this.room := [], [], room;
    }

    method SendSubscribe(frame: SubscribeFrame) returns (taken: bool)
      modifies this`subscribed, this`room
      ensures taken <==> old(room) > 0
      ensures subscribed == if taken then old(subscribed) + [frame] else old(subscribed)
    {
      if room == 0 {
        return false;
      }
      room := room - 1;
      subscribed := subscribed + [frame];
      return true;
    }

    method SendFrame(envelope: Envelope) returns (taken: bool)
      modifies this`sent, this`room
      ensures taken <==> old(room) > 0
      ensures sent == if taken then old(sent) + [envelope] else old(sent)
      ensures room == if taken then old(room) - 1 else old(room)
    {
      if room == 0 {
        return false;
      }
      room := room - 1;
      sent := sent + [envelope];
      return true;
    }
  }

  class ClientRunner {
    var pending: map<nat, PendingRequest>
    var responseIndex: map<Id, nat>
    var nextPending: u64
    var counter: u64
    var desiredSubscriptions: set<ControlState.AgentId>
    ghost var ledger: Ledger

    ghost function View(): Table
      reads this
    {
      Table(pending, responseIndex, nextPending, counter, ledger)
    }

    constructor ()
      ensures View() == EMPTY_TABLE && desiredSubscriptions == {}
    {
      desiredSubscriptions := {};
      pending, responseIndex, nextPending, counter := map[], map[], 0, 0;
      ledger := Ledger(0, map[], map[], map[], map[]);
    }

    method NextId(kind: IdKind) returns (id: Option<Id>)
      modifies this`counter
      ensures (View(), id) == Draw(old(View()), kind)
    {
      if counter == U64_MAX {
        return None;
      }
      id := Some(Id(kind, counter));
      counter := counter + 1;
    }

    method InsertPending(payload: string, operationId: Option<OperationName>) returns (key: nat)
      modifies this
      ensures View() == Insert(old(View()), payload, operationId) && key == old(nextPending)
    {
      key := nextPending;
      nextPending := if nextPending == U64_MAX then 0 else nextPending + 1;
      pending := pending[key := PendingRequest(payload, operationId, None)];
      ledger := Insert(old(View()), payload, operationId).ledger;
    }

    method SendPending(socket: Socket, key: nat) returns (ok: bool)
      modifies this`pending, this`responseIndex, this`counter, this`ledger, socket`sent, socket`room
      ensures var (after, envelope) := Send(old(View()), key, old(socket.room) > 0);
              && View() == after && ok == envelope.Some?
              && socket.sent == old(socket.sent) + (if ok then [envelope.value] else [])
      ensures ok ==> old(socket.room) > 0 && key in old(pending)
      ensures !ok && old(counter) < U64_MAX && key in old(pending) ==> old(socket.room) == 0
    {
      var id := NextId(RequestKind);
      if id.None? {
        return false;
      }
      if key !in pending {
        return false;
      }
      var taken := socket.SendFrame(Envelope(id.value, pending[key].operationId, pending[key].payload));
      if !taken {
        return false;
      }
      pending := pending[key := pending[key].(sentRequestId := id)];
      responseIndex := responseIndex[id.value := key];
      ledger := ledger.(sentAs := ledger.sentAs[id.value := key]);
      return true;
    }

    method CompleteResponse(requestId: Id, answer: Answer)
      modifies this
      ensures View() == Resolve(old(View()), requestId, answer)
    {
      if requestId !in responseIndex {
        return;
      }
      var key := responseIndex[requestId];
      responseIndex := responseIndex - {requestId};
      if key !in pending {
        return;
      }
      pending := pending - {key};
      ledger := ledger.(answers := Appended(ledger.answers, key, answer));
    }

    method MarkPendingDisconnected()
      modifies this
      ensures View() == MarkDisconnected(old(View()))
    {
      responseIndex := map[];
      var todo := pending.Keys;
      while todo != {}
        invariant todo <= old(pending).Keys && pending.Keys == old(pending).Keys
        invariant responseIndex == map[] && nextPending == old(nextPending) && counter == old(counter)
        invariant ledger == old(ledger)
        invariant forall k :: k in pending ==>
                    pending[k] == if k in todo then old(pending)[k] else old(pending)[k].(sentRequestId := None)
        decreases |todo|
      {
        var key :| key in todo;
        pending := pending[key := pending[key].(sentRequestId := None)];
        todo := todo - {key};
      }
    }

    method FailAllPending()
      modifies this
      ensures View() == FailPending(old(View()))
    {
      hide AppendedAll, Appended;
      responseIndex := map[];
      var taken := pending;
      pending := map[];
      var todo := taken.Keys;
      ghost var refused: set<nat> := {};
      NoneAppended(ledger.answers, ClientStopped);
      while todo != {}
        invariant refused + todo == taken.Keys && refused !! todo
        invariant responseIndex == map[] && pending == map[]
        invariant nextPending == old(nextPending) && counter == old(counter)
        invariant ledger == old(ledger).(answers := AppendedAll(old(ledger).answers, refused, ClientStopped))
        decreases |todo|
      {
        var key :| key in todo;
        OneMoreAppended(old(ledger).answers, refused, key, ClientStopped);
        ledger := ledger.(answers := Appended(ledger.answers, key, ClientStopped));
        todo := todo - {key};
        refused := refused + {key};
      }
      assert refused == taken.Keys;
    }

    /**
     * Every pending request is sent exactly once, oldest key first, under a fresh identifier; the
     * first failing send stops the loop.
     */
    method SendAllPending(socket: Socket) returns (ok: bool)
      requires TableInv(View()) && responseIndex == map[]
      modifies this`pending, this`responseIndex, this`counter, this`ledger, socket`sent, socket`room
      ensures TableInv(View()) && SameRequests(old(View()), View())
      ensures old(socket.sent) <= socket.sent && SentInOrder(View(), socket.sent[|old(socket.sent)|..])
      ensures ok ==> forall k :: k in pending ==> pending[k].sentRequestId.Some?
      ensures ok ==> |socket.sent| == |old(socket.sent)| + |pending|
    {
      hide TableInv, Send, SentInOrder, AllBelow, SameRequests, UnsentAre;
      ghost var start := View();
      NoneSent(start);
      SameAsItself(start);
      var todo := pending.Keys;
      NothingSent(View(), todo);
      assert socket.sent[|socket.sent|..] == [];
      while todo != {}
        invariant TableInv(View()) && SameRequests(old(View()), View())
        invariant old(socket.sent) <= socket.sent
        invariant SentInOrder(View(), socket.sent[|old(socket.sent)|..])
        invariant AllBelow(View(), socket.sent[|old(socket.sent)|..], todo)
        invariant UnsentAre(View(), todo)
        invariant |socket.sent| + |todo| == |old(socket.sent)| + |pending.Keys|
        decreases |todo|
      {
        ghost var least := Least(todo);
        var key :| key in todo && forall k :: k in todo ==> key <= k;
        ghost var before, room, frames := View(), socket.room > 0, socket.sent[|old(socket.sent)|..];
        SendMarksOne(before, key, room, todo);
        SendKeepsInv(before, key, room);
        SameThrough(start, before, Send(before, key, room).0);
        SendExtendsOrder(before, key, room, frames, todo);
        var sent := SendPending(socket, key);
        if !sent {
          assert socket.sent[|old(socket.sent)|..] == frames;
          return false;
        }
        assert socket.sent[|old(socket.sent)|..] == frames + [Send(before, key, room).1.value];
        todo := todo - {key};
      }
      AllSent(View());
      return true;
    }

    /**
     * One subscription for every agent the client wants to follow, in the order of their names, with
     * the cursor its replica has.
     */
    method SendSubscriptions(socket: Socket, replica: Reducer.Replica) returns (ok: bool)
      modifies socket`subscribed, socket`room
      ensures old(socket.subscribed) <= socket.subscribed
      ensures AsksInOrder(socket.subscribed[|old(socket.subscribed)|..], replica, desiredSubscriptions)
      ensures ok <==> |socket.subscribed| == |old(socket.subscribed)| + |desiredSubscriptions|
    {
      hide TextBelow;
      var todo := desiredSubscriptions;
      ghost var start := |socket.subscribed|;
      assert socket.subscribed[start..] == [];
      while todo != {}
        invariant todo <= desiredSubscriptions
        invariant old(socket.subscribed) <= socket.subscribed
        invariant AsksInOrder(socket.subscribed[start..], replica, desiredSubscriptions)
        invariant forall a :: a in desiredSubscriptions ==> (a in todo <==> !AskedFor(socket.subscribed[start..], a))
        invariant |socket.subscribed| + |todo| == start + |desiredSubscriptions|
        decreases |todo|
      {
        ghost var least := SomeTextIsLeast(todo);
        var agentId :| agentId in todo && LeastText(todo, agentId);
        ghost var asked := socket.subscribed[start..];
        var frame := SubscribeFrame(agentId, Reducer.Cursor(replica, agentId));
        var taken := socket.SendSubscribe(frame);
        if !taken {
          return false;
        }
        assert socket.subscribed[start..] == asked + [frame];
        AskingNext(asked, frame, replica, desiredSubscriptions, todo);
        todo := todo - {agentId};
      }
      return true;
    }

    /** A new connection: all subscriptions first, then all pending requests; the first failing send stops it. */
    method InitializeConnection(socket: Socket, replica: Reducer.Replica) returns (ok: bool)
      requires TableInv(View()) && responseIndex == map[]
      modifies this`pending, this`responseIndex, this`counter, this`ledger, socket
      ensures TableInv(View()) && SameRequests(old(View()), View())
      ensures old(socket.subscribed) <= socket.subscribed && old(socket.sent) <= socket.sent
      ensures AsksInOrder(socket.subscribed[|old(socket.subscribed)|..], replica, desiredSubscriptions)
      ensures SentInOrder(View(), socket.sent[|old(socket.sent)|..])
      ensures socket.sent != old(socket.sent) || ok ==>
                |socket.subscribed| == |old(socket.subscribed)| + |desiredSubscriptions|
      ensures ok ==> forall k :: k in pending ==> pending[k].sentRequestId.Some?
      ensures ok ==> |socket.sent| == |old(socket.sent)| + |pending|
    {
      hide TableInv, SentInOrder, SameRequests, AsksInOrder;
      SameAsItself(View());
      NothingSent(View(), {});
      assert socket.sent[|socket.sent|..] == [];
      ok := SendSubscriptions(socket, replica);
      if ok {
        ok := SendAllPending(socket);
      }
    }
  }

  predicate AskedFor(frames: seq<SubscribeFrame>, agentId: ControlState.AgentId) {
    exists i :: 0 <= i < |frames| && frames[i].agentId == agentId
  }

  /**
   * These are the first of the agents to follow in the order of their names, none twice, each with the
   * cursor the replica has for it.
   */
  predicate AsksInOrder(frames: seq<SubscribeFrame>, replica: Reducer.Replica, wanted: set<ControlState.AgentId>) {
    && (forall i :: 0 <= i < |frames| ==>
          frames[i].agentId in wanted && frames[i].cursor == Reducer.Cursor(replica, frames[i].agentId))
    && (forall i, j :: 0 <= i < j < |frames| ==> TextBelow(frames[i].agentId, frames[j].agentId))
    && (forall i, a :: 0 <= i < |frames| && a in wanted && !AskedFor(frames, a) ==> TextBelow(frames[i].agentId, a))
  }

  lemma AskingNext(frames: seq<SubscribeFrame>, frame: SubscribeFrame, replica: Reducer.Replica,
                   wanted: set<ControlState.AgentId>, todo: set<ControlState.AgentId>)
    requires AsksInOrder(frames, replica, wanted) && todo <= wanted && LeastText(todo, frame.agentId)
    requires frame.cursor == Reducer.Cursor(replica, frame.agentId)
    requires forall a :: a in wanted ==> (a in todo <==> !AskedFor(frames, a))
    ensures AsksInOrder(frames + [frame], replica, wanted)
    ensures forall a :: a in wanted ==> (a in todo - {frame.agentId} <==> !AskedFor(frames + [frame], a))
  {
    hide TextBelow;
    forall a ensures AskedFor(frames + [frame], a) <==> AskedFor(frames, a) || a == frame.agentId {
      if AskedFor(frames, a) {
        var i :| 0 <= i < |frames| && frames[i].agentId == a;
        assert (frames + [frame])[i].agentId == a;
      }
      assert (frames + [frame])[|frames|] == frame;
    }
  }

  /** These frames were sent on the live connection, in key order, each saying what its pending request says. */
  predicate SentInOrder(t: Table, frames: seq<Envelope>) {
    && (forall i :: 0 <= i < |frames| ==> SaysItsRequest(t, frames[i]))
    && forall i, j :: 0 <= i < j < |frames| ==> SentBefore(t, frames[i], frames[j])
  }

  predicate SentBefore(t: Table, first: Envelope, second: Envelope) {
    && first.requestId in t.responseIndex && second.requestId in t.responseIndex
    && t.responseIndex[first.requestId] < t.responseIndex[second.requestId]
  }

  predicate SaysItsRequest(t: Table, frame: Envelope) {
    && frame.requestId in t.responseIndex && t.responseIndex[frame.requestId] in t.pending
    && var p := t.pending[t.responseIndex[frame.requestId]];
       frame == Envelope(frame.requestId, p.operationId, p.payload)
  }

  predicate AllBelow(t: Table, frames: seq<Envelope>, todo: set<nat>) {
    forall i, k :: 0 <= i < |frames| && k in todo ==>
      frames[i].requestId in t.responseIndex && t.responseIndex[frames[i].requestId] < k
  }

  lemma NothingSent(t: Table, todo: set<nat>)
    ensures SentInOrder(t, []) && AllBelow(t, [], todo)
  {
  }

  /** A send changes the index by its own new identifier only, and its frame says what its request says. */
  lemma SendSays(t: Table, key: nat, taken: bool)
    requires TableInv(t) && key in t.pending
    ensures var (after, envelope) := Send(t, key, taken);
            && (envelope.Some? ==>
                  && envelope.value.requestId !in t.responseIndex
                  && after.responseIndex == t.responseIndex[envelope.value.requestId := key]
                  && SaysItsRequest(after, envelope.value))
            && (envelope.None? ==> after.responseIndex == t.responseIndex && after.pending == t.pending)
            && after.pending.Keys == t.pending.Keys
            && forall k :: k in t.pending ==>
                 after.pending[k].payload == t.pending[k].payload && after.pending[k].operationId == t.pending[k].operationId
  {
    hide Conserved, Indexed, DistinctOperations, Remembers;
    assert Id(RequestKind, t.counter) !in t.responseIndex;
  }

  lemma FrameStillSays(t: Table, after: Table, frame: Envelope)
    requires SaysItsRequest(t, frame)
    requires frame.requestId in after.responseIndex && after.responseIndex[frame.requestId] == t.responseIndex[frame.requestId]
    requires after.pending.Keys == t.pending.Keys
    requires forall k :: k in t.pending ==>
               after.pending[k].payload == t.pending[k].payload && after.pending[k].operationId == t.pending[k].operationId
    ensures SaysItsRequest(after, frame)
  {
    assert t.responseIndex[frame.requestId] in after.pending.Keys;
  }

  /** The index kept what it had, and the requests say what they said. */
  predicate IndexGrew(t: Table, after: Table) {
    && (forall id :: id in t.responseIndex ==> id in after.responseIndex && after.responseIndex[id] == t.responseIndex[id])
    && after.pending.Keys == t.pending.Keys
    && forall k :: k in t.pending ==>
         after.pending[k].payload == t.pending[k].payload && after.pending[k].operationId == t.pending[k].operationId
  }

  lemma OrderKept(t: Table, after: Table, frames: seq<Envelope>)
    requires SentInOrder(t, frames) && IndexGrew(t, after)
    ensures SentInOrder(after, frames)
  {
    forall i | 0 <= i < |frames| ensures SaysItsRequest(after, frames[i]) {
      assert SaysItsRequest(t, frames[i]);
      FrameStillSays(t, after, frames[i]);
    }
    hide SaysItsRequest;
    forall i, j | 0 <= i < j < |frames| ensures SentBefore(after, frames[i], frames[j]) {
      assert SentBefore(t, frames[i], frames[j]);
    }
  }

  lemma OrderPush(t: Table, frames: seq<Envelope>, frame: Envelope)
    requires SentInOrder(t, frames) && SaysItsRequest(t, frame)
    requires forall i :: 0 <= i < |frames| ==> SentBefore(t, frames[i], frame)
    ensures SentInOrder(t, frames + [frame])
  {
    hide SaysItsRequest, SentBefore;
  }

  lemma BelowPush(t: Table, after: Table, frames: seq<Envelope>, frame: Envelope, key: nat, todo: set<nat>)
    requires AllBelow(t, frames, todo) && key in todo && forall k :: k in todo ==> key <= k
    requires frame.requestId !in t.responseIndex && after.responseIndex == t.responseIndex[frame.requestId := key]
    ensures AllBelow(after, frames + [frame], todo - {key})
    ensures forall i :: 0 <= i < |frames| ==> SentBefore(after, frames[i], frame)
  {
  }

  /** Sending the least remaining key keeps the order, whether or not the socket takes the frame. */
  lemma SendExtendsOrder(t: Table, key: nat, taken: bool, frames: seq<Envelope>, todo: set<nat>)
    requires TableInv(t) && key in t.pending
    requires SentInOrder(t, frames) && AllBelow(t, frames, todo)
    requires key in todo && forall k :: k in todo ==> key <= k
    ensures var (after, envelope) := Send(t, key, taken);
            if envelope.Some? then
              SentInOrder(after, frames + [envelope.value]) && AllBelow(after, frames + [envelope.value], todo - {key})
            else SentInOrder(after, frames)
  {
    hide Send, TableInv, SaysItsRequest, SentInOrder, AllBelow;
    SendSays(t, key, taken);
    var (after, envelope) := Send(t, key, taken);
    OrderKept(t, after, frames);
    if envelope.Some? {
      BelowPush(t, after, frames, envelope.value, key, todo);
      OrderPush(after, frames, envelope.value);
    }
  }

  /** Exactly these pending requests have not been sent on the live connection. */
  predicate UnsentAre(t: Table, todo: set<nat>) {
    todo <= t.pending.Keys && forall k :: k in t.pending ==> (k in todo <==> t.pending[k].sentRequestId.None?)
  }

  lemma SendMarksOne(t: Table, key: nat, taken: bool, todo: set<nat>)
    requires UnsentAre(t, todo) && key in todo
    ensures key in t.pending && t.pending[key].sentRequestId.None?
    ensures Send(t, key, taken).1.Some? ==> UnsentAre(Send(t, key, taken).0, todo - {key})
    ensures Send(t, key, taken).0.pending.Keys == t.pending.Keys
    ensures SameRequests(t, Send(t, key, taken).0)
  {
    SendMarks(t, key, taken);
    hide Send;
  }

  /** The same submissions are pending and the same are answered; only sending state differs. */
  predicate SameRequests(before: Table, after: Table) {
    && after.pending.Keys == before.pending.Keys
    && after.ledger == before.ledger.(sentAs := after.ledger.sentAs)
    && after.nextPending == before.nextPending
    && forall k :: k in before.pending ==>
         after.pending[k] == before.pending[k].(sentRequestId := after.pending[k].sentRequestId)
  }

  lemma SameAsItself(t: Table)
    ensures SameRequests(t, t)
  {
  }

  lemma SameThrough(a: Table, b: Table, c: Table)
    requires SameRequests(a, b) && SameRequests(b, c)
    ensures SameRequests(a, c)
  {
  }

  lemma NoneSent(t: Table)
    requires TableInv(t) && t.responseIndex == map[]
    ensures UnsentAre(t, t.pending.Keys)
  {
  }

  lemma AllSent(t: Table)
    requires UnsentAre(t, {})
    ensures forall k :: k in t.pending ==> t.pending[k].sentRequestId.Some?
  {
  }

  lemma SendMarks(t: Table, key: nat, taken: bool)
    requires key in t.pending
    ensures var (after, envelope) := Send(t, key, taken);
            && SameRequests(t, after)
            && (forall k :: k in t.pending && k != key ==> after.pending[k] == t.pending[k])
            && (envelope.Some? ==> after.pending[key].sentRequestId.Some?)
  {
  }

  const EMPTY_TABLE := Table(map[], map[], 0, 0, Ledger(0, map[], map[], map[], map[]))

  lemma {:induction false} Least(keys: set<nat>) returns (least: nat)
    requires keys != {}
    ensures least in keys && forall k :: k in keys ==> least <= k
    decreases |keys|
  {
    var some :| some in keys;
    var rest := keys - {some};
    assert keys == rest + {some};
    least := some;
    if rest != {} {
      var other := Least(rest);
      least := if some <= other then some else other;
    }
  }

  // ----- conservation -----

  /** Every submission is pending or was answered once, never both. */
  predicate Conserved(t: Table) {
    && (forall k: nat :: k in t.pending ==> k < t.ledger.submitted)
    && (forall k: nat :: k in t.ledger.answers ==> k < t.ledger.submitted && |t.ledger.answers[k]| == 1)
    && (forall k: nat :: k < t.ledger.submitted ==> (k in t.pending <==> k !in t.ledger.answers))
  }

  /** The response index and the pending entries sent on this connection point at each other. */
  predicate Indexed(t: Table) {
    && (forall id :: id in t.responseIndex ==>
          t.responseIndex[id] in t.pending && t.pending[t.responseIndex[id]].sentRequestId == Some(id))
    && (forall k :: k in t.pending && t.pending[k].sentRequestId.Some? ==>
          t.pending[k].sentRequestId.value in t.responseIndex
          && t.responseIndex[t.pending[k].sentRequestId.value] == k)
  }

  /** Identifiers are never drawn twice, so an identifier stands for one send or one operation for ever. */
  predicate FreshIds(t: Table) {
    && (forall id :: id in t.ledger.sentAs ==> id.kind == RequestKind && id.counter < t.counter)
    && (forall id :: id in t.responseIndex ==> id in t.ledger.sentAs && t.ledger.sentAs[id] == t.responseIndex[id])
    && (forall k: nat :: k in t.ledger.operations ==> WasDrawn(t, t.ledger.operations[k]))
    && DistinctOperations(t.ledger.operations)
    && (forall k :: k in t.pending ==> Remembers(t, k))
    && (forall k: nat :: k in t.ledger.operations ==> k < t.ledger.submitted)
  }

  /** A pending entry still carries the payload and the operation identifier it was submitted with. */
  predicate Remembers(t: Table, k: nat)
    requires k in t.pending
  {
    && k in t.ledger.payloads && t.pending[k].payload == t.ledger.payloads[k]
    && t.pending[k].operationId == (if k in t.ledger.operations then Some(t.ledger.operations[k]) else None)
  }

  /** A generated name was drawn from the counter; a caller may supply any text, and the same one again. */
  predicate WasDrawn(t: Table, name: OperationName) {
    name.Generated? ==> name.id.kind == OperationKind && name.id.counter < t.counter
  }

  predicate DistinctOperations(operations: map<nat, OperationName>) {
    forall j, k :: j in operations && k in operations && j != k && operations[j].Generated? ==>
      operations[j] != operations[k]
  }

  predicate TableInv(t: Table) {
    && t.ledger.submitted <= KEYS
    && t.nextPending == t.ledger.submitted % KEYS
    && Conserved(t) && Indexed(t) && FreshIds(t)
  }

  predicate UnusedOperation(t: Table, operationId: Option<OperationName>) {
    operationId.Some? && operationId.value.Generated? ==>
      && WasDrawn(t, operationId.value)
      && forall k: nat :: k in t.ledger.operations ==> t.ledger.operations[k] != operationId.value
  }

  lemma InsertKeepsInv(t: Table, payload: string, operationId: Option<OperationName>)
    requires TableInv(t) && t.ledger.submitted < KEYS && UnusedOperation(t, operationId)
    ensures TableInv(Insert(t, payload, operationId))
  {
    hide FreshIds, Conserved, Indexed, UnusedOperation;
    KeyIsNumber(t.ledger.submitted);
    InsertKeepsIds(t, payload, operationId);
    InsertKeepsConserved(t, payload, operationId);
    InsertKeepsIndex(t, payload, operationId);
  }

  lemma KeyIsNumber(submitted: nat)
    requires submitted < KEYS
    ensures submitted % KEYS == submitted
    ensures (submitted + 1) % KEYS == if submitted == U64_MAX then 0 else submitted + 1
  {
  }

  lemma InsertKeepsIndex(t: Table, payload: string, operationId: Option<OperationName>)
    requires Indexed(t) && Conserved(t) && t.nextPending == t.ledger.submitted
    ensures Indexed(Insert(t, payload, operationId))
  {
    assert t.nextPending !in t.pending;
  }

  lemma InsertKeepsConserved(t: Table, payload: string, operationId: Option<OperationName>)
    requires Conserved(t) && t.nextPending == t.ledger.submitted
    ensures Conserved(Insert(t, payload, operationId))
  {
  }

  lemma InsertKeepsIds(t: Table, payload: string, operationId: Option<OperationName>)
    requires FreshIds(t) && Conserved(t) && UnusedOperation(t, operationId) && t.nextPending == t.ledger.submitted
    ensures FreshIds(Insert(t, payload, operationId))
  {
    hide Conserved, DistinctOperations;
    var after := Insert(t, payload, operationId);
    forall k | k in after.pending ensures Remembers(after, k) {
      assert k in t.pending ==> Remembers(t, k);
    }
    InsertKeepsDistinct(t, payload, operationId);
  }

  lemma InsertKeepsDistinct(t: Table, payload: string, operationId: Option<OperationName>)
    requires DistinctOperations(t.ledger.operations) && UnusedOperation(t, operationId)
    ensures DistinctOperations(Insert(t, payload, operationId).ledger.operations)
  {
  }

  lemma SendKeepsInv(t: Table, key: nat, taken: bool)
    requires TableInv(t) && (key in t.pending ==> t.pending[key].sentRequestId.None?)
    ensures TableInv(Send(t, key, taken).0)
    ensures Send(t, key, taken).0.pending.Keys == t.pending.Keys
    ensures Send(t, key, taken).0.ledger.answers == t.ledger.answers
    ensures Send(t, key, taken).0.ledger.submitted == t.ledger.submitted
  {
    SendKeepsIndex(t, key, taken);
    SendKeepsIds(t, key, taken);
    hide FreshIds, Indexed, Conserved;
    var after := Send(t, key, taken).0;
    assert after.pending.Keys == t.pending.Keys;
    ConservedIgnoresSends(t, after);
  }

  lemma SendKeepsIndex(t: Table, key: nat, taken: bool)
    requires Indexed(t) && FreshIds(t) && (key in t.pending ==> t.pending[key].sentRequestId.None?)
    ensures Indexed(Send(t, key, taken).0)
  {
    hide DistinctOperations;
  }

  lemma SendKeepsIds(t: Table, key: nat, taken: bool)
    requires FreshIds(t)
    ensures FreshIds(Send(t, key, taken).0)
  {
    hide DistinctOperations;
  }

  lemma ConservedIgnoresSends(t: Table, after: Table)
    requires Conserved(t) && after.pending.Keys == t.pending.Keys
    requires after.ledger.answers == t.ledger.answers && after.ledger.submitted == t.ledger.submitted
    ensures Conserved(after)
  {
    assert forall k: nat :: k in after.pending <==> k in after.pending.Keys;
    assert forall k: nat :: k in t.pending <==> k in t.pending.Keys;
  }

  lemma ResolveKeepsInv(t: Table, requestId: Id, answer: Answer)
    requires TableInv(t)
    ensures TableInv(Resolve(t, requestId, answer))
  {
  }

  lemma MarkKeepsInv(t: Table)
    requires TableInv(t)
    ensures TableInv(MarkDisconnected(t))
  {
  }

  lemma FailKeepsInv(t: Table)
    requires TableInv(t)
    ensures TableInv(FailPending(t)) && FailPending(t).pending == map[]
  {
  }

  // ----- runs of the client -----

  datatype Client = Client(table: Table, online: bool, stopped: bool)

  datatype ClientEvent =
    | SubmitMutation(payload: string)
    | SubmitNamed(payload: string, text: string)
    | SubmitRead(payload: string)
    | ConnectionUp
    | SendKey(key: nat, taken: bool)
    | ResponseArrives(requestId: Id, answer: Answer)
    | ConnectionDown
    | Stop

  const NEW_CLIENT := Client(EMPTY_TABLE, false, false)

  function ClientStep(c: Client, e: ClientEvent): Client {
    if c.stopped then c
    else
      match e
      case SubmitMutation(payload) =>
        var (drawn, id) := Draw(c.table, OperationKind);
        if id.None? then c else c.(table := Insert(drawn, payload, Some(Generated(id.value))))
      case SubmitNamed(payload, text) => c.(table := Insert(c.table, payload, Some(Supplied(text))))
      case SubmitRead(payload) => c.(table := Insert(c.table, payload, None))
      case ConnectionUp => c.(online := true)
      case SendKey(key, taken) =>
        if c.online && key in c.table.pending && c.table.pending[key].sentRequestId.None?
        then c.(table := Send(c.table, key, taken).0) else c
      case ResponseArrives(requestId, answer) =>
        if c.online then c.(table := Resolve(c.table, requestId, answer)) else c
      case ConnectionDown => c.(table := MarkDisconnected(c.table), online := false)
      case Stop => c.(table := FailPending(c.table), online := false, stopped := true)
  }

  function ClientRun(events: seq<ClientEvent>): Client {
    if events == [] then NEW_CLIENT else ClientStep(ClientRun(events[..|events| - 1]), events[|events| - 1])
  }

  predicate ClientInv(c: Client) {
    && TableInv(c.table)
    && (!c.online ==> c.table.responseIndex == map[])
    && (c.stopped ==> c.table.pending == map[] && !c.online)
  }

  lemma ClientStepKeepsInv(c: Client, e: ClientEvent)
    requires ClientInv(c) && ClientStep(c, e).table.ledger.submitted <= KEYS
    ensures ClientInv(ClientStep(c, e))
  {
    if !c.stopped {
      match e
      case SubmitMutation(payload) =>
        var (drawn, id) := Draw(c.table, OperationKind);
        if id.Some? {
          DrawKeepsInv(c.table);
          InsertKeepsInv(drawn, payload, Some(Generated(id.value)));
        }
      case SubmitNamed(payload, text) => InsertKeepsInv(c.table, payload, Some(Supplied(text)));
      case SubmitRead(payload) => InsertKeepsInv(c.table, payload, None);
      case SendKey(key, taken) =>
        if c.online && key in c.table.pending && c.table.pending[key].sentRequestId.None? {
          SendKeepsInv(c.table, key, taken);
        }
      case ResponseArrives(requestId, answer) => ResolveKeepsInv(c.table, requestId, answer);
      case ConnectionDown => MarkKeepsInv(c.table);
      case Stop => FailKeepsInv(c.table);
      case ConnectionUp =>
    }
  }

  lemma DrawKeepsInv(t: Table)
    requires TableInv(t)
    ensures TableInv(Draw(t, OperationKind).0)
  {
  }

  lemma SubmittedGrows(c: Client, e: ClientEvent)
    ensures c.table.ledger.submitted <= ClientStep(c, e).table.ledger.submitted
  {
  }

  /**
   * Conservation: over any run with at most 2^64 submissions, each submission is exactly one of
   * pending and answered once, the response index mirrors what was sent on the live connection and
   * is empty offline, and a stopped client has nothing pending.
   */
  lemma {:induction false} RequestsAreConserved(events: seq<ClientEvent>)
    requires ClientRun(events).table.ledger.submitted <= KEYS
    ensures ClientInv(ClientRun(events))
  {
    if events == [] {
      assert 0 % KEYS == 0;
    } else {
      hide ClientStep, ClientInv;
      SubmittedGrows(ClientRun(events[..|events| - 1]), events[|events| - 1]);
      RequestsAreConserved(events[..|events| - 1]);
      ClientStepKeepsInv(ClientRun(events[..|events| - 1]), events[|events| - 1]);
    }
  }

  /** A response can only answer the submission that was sent under its identifier, and no other. */
  lemma ResponseAnswersItsSender(events: seq<ClientEvent>, requestId: Id, answer: Answer, k: nat)
    requires ClientRun(events).table.ledger.submitted <= KEYS
    requires var before := ClientRun(events);
             var after := ClientStep(before, ResponseArrives(requestId, answer));
             k in after.table.ledger.answers && k !in before.table.ledger.answers
    ensures var before := ClientRun(events);
            && requestId in before.table.ledger.sentAs && before.table.ledger.sentAs[requestId] == k
            && k in before.table.pending && before.table.pending[k].sentRequestId == Some(requestId)
            && ClientStep(before, ResponseArrives(requestId, answer)).table.ledger.answers[k] == [answer]
  {
    RequestsAreConserved(events);
  }
}
