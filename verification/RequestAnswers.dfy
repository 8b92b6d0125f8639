/** Which submission a response answers, over whole runs: the one whose frame it names, exactly once, and no other. */
module RequestAnswers {
  import opened Prelude
  import opened ClientRequests

  // ----- what was sent -----

  /** The frame that the socket took in this step, and the submission it was sent for. */
  function FrameTaken(c: Client, e: ClientEvent): Option<Envelope> {
    if e.SendKey? && !c.stopped && c.online && e.key in c.table.pending
       && c.table.pending[e.key].sentRequestId.None?
    then Send(c.table, e.key, e.taken).1 else None
  }

  /** The i-th event put a frame with this request identifier on the wire for submission k. */
  predicate SentAt(events: seq<ClientEvent>, i: nat, requestId: Id, k: nat)
    requires i < |events|
  {
    && events[i].SendKey? && events[i].key == k
    && FrameTaken(ClientRun(events[..i]), events[i]).Some?
    && FrameTaken(ClientRun(events[..i]), events[i]).value.requestId == requestId
  }

  predicate EndsConnection(e: ClientEvent) {
    e.ConnectionDown? || e.Stop?
  }

  /** k was sent under the identifier, on the connection that is still up. */
  predicate SentLive(events: seq<ClientEvent>, requestId: Id, k: nat) {
    exists i: nat | i < |events| :: SentSince(events, i, requestId, k)
  }

  predicate SentSince(events: seq<ClientEvent>, i: nat, requestId: Id, k: nat) {
    && i < |events| && SentAt(events, i, requestId, k)
    && forall j :: i < j < |events| ==> !EndsConnection(events[j])
  }

  // ----- the index over one step -----

  /** The index after a step: gone with the connection, one entry more for a frame taken, one less for a response. */
  lemma IndexAfter(c: Client, e: ClientEvent, id: Id, k: nat)
    requires ClientInv(c)
    ensures var before := c.table.responseIndex;
            var after := ClientStep(c, e).table.responseIndex;
            var taken := FrameTaken(c, e);
            id in after && after[id] == k <==>
              (c.stopped || !EndsConnection(e))
              && if taken.Some? && taken.value.requestId == id then e.key == k
                 else id in before && before[id] == k && !(c.online && e.ResponseArrives? && e.requestId == id)
  {
    hide FreshIds, Conserved;
  }

  lemma FrameIsNew(c: Client, e: ClientEvent)
    requires ClientInv(c) && FrameTaken(c, e).Some?
    ensures e.SendKey?
    ensures var id := FrameTaken(c, e).value.requestId;
            && id !in c.table.responseIndex && id == Id(RequestKind, c.table.counter)
            && e.key in c.table.pending && e.key !in c.table.ledger.answers
            && ClientStep(c, e).table.ledger.answers == c.table.ledger.answers
            && FrameTaken(c, e).value.payload == c.table.pending[e.key].payload
            && FrameTaken(c, e).value.operationId == c.table.pending[e.key].operationId
  {
    hide Indexed;
  }

  /** What a response does when it arrives: it answers what its identifier stands for, or does nothing at all. */
  lemma ResponseDoes(c: Client, requestId: Id, answer: Answer)
    requires ClientInv(c)
    ensures var after := ClientStep(c, ResponseArrives(requestId, answer));
            if c.online && requestId in c.table.responseIndex then
              var k := c.table.responseIndex[requestId];
              && k in c.table.pending && k !in c.table.ledger.answers
              && after == c.(table := c.table.(
                   pending := c.table.pending - {k}, responseIndex := c.table.responseIndex - {requestId},
                   ledger := c.table.ledger.(answers := c.table.ledger.answers[k := [answer]])))
            else after == c
  {
    hide FreshIds;
    assert [] + [answer] == [answer];
  }

  lemma AnswersGrow(c: Client, e: ClientEvent, k: nat)
    requires ClientInv(c) && k in c.table.ledger.answers
    ensures k in ClientStep(c, e).table.ledger.answers
    ensures ClientStep(c, e).table.ledger.answers[k] == c.table.ledger.answers[k]
  {
    hide FreshIds;
  }

  /** Only a response, or stopping, answers anything. */
  lemma AnsweredBy(c: Client, e: ClientEvent, k: nat)
    requires ClientInv(c) && k !in c.table.ledger.answers && k in ClientStep(c, e).table.ledger.answers
    ensures !c.stopped && k in c.table.pending
    ensures ClientStep(c, e).table.ledger.answers[k]
            == [if e.ResponseArrives? then e.answer else ClientStopped]
    ensures e.Stop? || (e.ResponseArrives? && c.online && e.requestId in c.table.responseIndex
                        && c.table.responseIndex[e.requestId] == k)
  {
    hide FreshIds;
    assert [] + [ClientStopped] == [ClientStopped];
    if e.ResponseArrives? {
      assert [] + [e.answer] == [e.answer];
    }
  }

  // ----- the index over a run -----

  lemma InvOfPrefix(events: seq<ClientEvent>)
    requires events != [] && ClientRun(events).table.ledger.submitted <= KEYS
    ensures ClientRun(events[..|events| - 1]).table.ledger.submitted <= KEYS
    ensures ClientInv(ClientRun(events[..|events| - 1])) && ClientInv(ClientRun(events))
  {
    hide ClientStep, ClientInv;
    SubmittedGrows(ClientRun(events[..|events| - 1]), events[|events| - 1]);
    RequestsAreConserved(events[..|events| - 1]);
    RequestsAreConserved(events);
  }

  lemma SentSinceLonger(events: seq<ClientEvent>, i: nat, requestId: Id, k: nat)
    requires events != [] && i < |events| - 1
    ensures SentSince(events, i, requestId, k)
            <==> SentSince(events[..|events| - 1], i, requestId, k) && !EndsConnection(events[|events| - 1])
  {
    hide EndsConnection, FrameTaken, ClientRun;
    var shorter := events[..|events| - 1];
    assert shorter[..i] == events[..i];
    assert forall j :: i < j < |shorter| ==> shorter[j] == events[j];
  }

  lemma SentSinceNow(events: seq<ClientEvent>, requestId: Id, k: nat)
    requires events != []
    ensures SentSince(events, |events| - 1, requestId, k)
            <==> SentAt(events, |events| - 1, requestId, k)
  {
  }

  /** What an identifier stands for: the submission sent under it on the live connection, until that is answered. */
  lemma {:induction false} IndexedExactlyWhen(events: seq<ClientEvent>, id: Id, k: nat)
    requires ClientRun(events).table.ledger.submitted <= KEYS
    ensures var t := ClientRun(events).table;
            id in t.responseIndex && t.responseIndex[id] == k
            <==> SentLive(events, id, k) && k !in t.ledger.answers
  {
    if events != [] {
      hide ClientStep, ClientInv, EndsConnection, SentSince, SentAt, FrameTaken;
      var n := |events| - 1;
      var c := ClientRun(events[..n]);
      InvOfPrefix(events);
      IndexedExactlyWhen(events[..n], id, k);
      IndexAfter(c, events[n], id, k);
      if FrameTaken(c, events[n]).Some? && FrameTaken(c, events[n]).value.requestId == id {
        IndexedByThisFrame(events, id, k);
      } else {
        IndexedByEarlierFrame(events, id, k);
      }
    }
  }

  lemma IndexedByThisFrame(events: seq<ClientEvent>, id: Id, k: nat)
    requires events != [] && ClientRun(events).table.ledger.submitted <= KEYS
    requires var c := ClientRun(events[..|events| - 1]);
             FrameTaken(c, events[|events| - 1]).Some? && FrameTaken(c, events[|events| - 1]).value.requestId == id
    ensures SentLive(events, id, k) && k !in ClientRun(events).table.ledger.answers
            <==> events[|events| - 1].key == k
  {
    hide ClientStep, ClientInv, FrameTaken;
    var n := |events| - 1;
    InvOfPrefix(events);
    FrameIsNew(ClientRun(events[..n]), events[n]);
    SentSinceNow(events, id, k);
    hide SentAt;
    if i: nat :| SentSince(events, i, id, k) && i < n {
      SentEarlier(events, i, id, k);
    }
    if events[n].key == k {
      TakenIsSent(events, id);
      assert SentSince(events, n, id, k);
    }
  }

  lemma SentEarlier(events: seq<ClientEvent>, i: nat, id: Id, k: nat)
    requires i < |events| - 1 && SentAt(events, i, id, k)
    ensures id.counter < ClientRun(events[..|events| - 1]).table.counter
  {
    hide ClientRun, FrameTaken;
    assert events[..|events| - 1][..i] == events[..i];
    SentBelowCounter(events[..|events| - 1], i, id, k);
  }

  lemma TakenIsSent(events: seq<ClientEvent>, id: Id)
    requires events != []
    requires var c := ClientRun(events[..|events| - 1]);
             FrameTaken(c, events[|events| - 1]).Some? && FrameTaken(c, events[|events| - 1]).value.requestId == id
    ensures SentAt(events, |events| - 1, id, events[|events| - 1].key)
  {
    hide ClientRun;
  }

  /** Every identifier that was put on the wire has been drawn. */
  lemma {:induction false} SentBelowCounter(events: seq<ClientEvent>, i: nat, id: Id, k: nat)
    requires i < |events| && SentAt(events, i, id, k)
    ensures id.counter < ClientRun(events).table.counter
    decreases |events|
  {
    var n := |events| - 1;
    if i < n {
      hide ClientStep, FrameTaken;
      assert events[..n][..i] == events[..i];
      SentBelowCounter(events[..n], i, id, k);
      CounterGrows(ClientRun(events[..n]), events[n]);
    }
  }

  lemma CounterGrows(c: Client, e: ClientEvent)
    ensures c.table.counter <= ClientStep(c, e).table.counter
  {
  }

  lemma IndexedByEarlierFrame(events: seq<ClientEvent>, id: Id, k: nat)
    requires events != [] && ClientRun(events).table.ledger.submitted <= KEYS
    requires var c := ClientRun(events[..|events| - 1]);
             var taken := FrameTaken(c, events[|events| - 1]);
             taken.Some? ==> taken.value.requestId != id
    requires var t := ClientRun(events[..|events| - 1]).table;
             id in t.responseIndex && t.responseIndex[id] == k
             <==> SentLive(events[..|events| - 1], id, k) && k !in t.ledger.answers
    requires var t := ClientRun(events).table;
             var c := ClientRun(events[..|events| - 1]);
             var e := events[|events| - 1];
             id in t.responseIndex && t.responseIndex[id] == k
             <==> (c.stopped || !EndsConnection(e)) && id in c.table.responseIndex && c.table.responseIndex[id] == k
                  && !(c.online && e.ResponseArrives? && e.requestId == id)
    ensures var t := ClientRun(events).table;
            id in t.responseIndex && t.responseIndex[id] == k
            <==> SentLive(events, id, k) && k !in t.ledger.answers
  {
    hide ClientStep, ClientInv, FrameTaken, SentLive;
    var c := ClientRun(events[..|events| - 1]);
    InvOfPrefix(events);
    LiveStaysLive(events, id, k);
    AnsweredInStep(c, events[|events| - 1], id, k);
    if c.stopped {
      StoppedHasNoIndex(c, id);
    }
  }

  lemma StoppedHasNoIndex(c: Client, id: Id)
    requires ClientInv(c) && c.stopped
    ensures id !in c.table.responseIndex
  {
  }

  /** A submission that an identifier stands for is answered in a step exactly by the response to it, or by stopping. */
  lemma AnsweredInStep(c: Client, e: ClientEvent, id: Id, k: nat)
    requires ClientInv(c)
    ensures id in c.table.responseIndex && c.table.responseIndex[id] == k ==>
              k !in c.table.ledger.answers
              && (k in ClientStep(c, e).table.ledger.answers <==>
                    e.Stop? || (c.online && e.ResponseArrives? && e.requestId == id))
    ensures k in c.table.ledger.answers ==> k in ClientStep(c, e).table.ledger.answers
  {
    hide FreshIds;
  }

  lemma LiveStaysLive(events: seq<ClientEvent>, id: Id, k: nat)
    requires events != []
    requires var c := ClientRun(events[..|events| - 1]);
             var taken := FrameTaken(c, events[|events| - 1]);
             taken.Some? ==> taken.value.requestId != id
    ensures SentLive(events, id, k) <==>
              SentLive(events[..|events| - 1], id, k) && !EndsConnection(events[|events| - 1])
  {
    hide ClientRun, FrameTaken, EndsConnection;
    var n := |events| - 1;
    forall i: nat | i < n
      ensures SentSince(events, i, id, k) <==> SentSince(events[..n], i, id, k) && !EndsConnection(events[n])
    {
      SentSinceLonger(events, i, id, k);
    }
    assert !SentAt(events, n, id, k);
    hide SentSince, SentAt;
    SentSinceNow(events, id, k);
    if SentLive(events[..n], id, k) && !EndsConnection(events[n]) {
      var i: nat :| i < n && SentSince(events[..n], i, id, k);
      assert SentSince(events, i, id, k);
    }
  }

  // ----- the main results -----

  /**
   * A response that arrives online answers submission k in that step exactly when k was sent under its
   * identifier on the live connection and is not answered yet. Then k has that one answer, is no longer
   * pending, and nothing else changes but that the identifier is spent. A response that answers nothing
   * changes nothing.
   */
  lemma ResponseAnswersExactlyWhen(events: seq<ClientEvent>, requestId: Id, answer: Answer, k: nat)
    requires ClientRun(events).table.ledger.submitted <= KEYS
    ensures var before := ClientRun(events);
            var after := ClientStep(before, ResponseArrives(requestId, answer));
            var sent := before.online && SentLive(events, requestId, k) && k !in before.table.ledger.answers;
            && (k !in before.table.ledger.answers && k in after.table.ledger.answers <==> sent)
            && (sent ==>
                  && k in before.table.pending
                  && after == before.(table := before.table.(
                       pending := before.table.pending - {k},
                       responseIndex := before.table.responseIndex - {requestId},
                       ledger := before.table.ledger.(
                         answers := before.table.ledger.answers[k := [answer]]))))
            && (after.table.ledger.answers == before.table.ledger.answers ==> after == before)
  {
    var c := ClientRun(events);
    RequestsAreConserved(events);
    IndexedExactlyWhen(events, requestId, k);
    ResponseDoes(c, requestId, answer);
    hide ClientStep, ClientInv, ClientRun, SentLive;
    if requestId in c.table.responseIndex {
      assert c.table.ledger.answers[c.table.responseIndex[requestId] := [answer]] != c.table.ledger.answers;
    }
  }

  /** An identifier stands for one submission only. */
  lemma {:induction false} OneSubmissionPerIdentifier(events: seq<ClientEvent>, i: nat, j: nat, id: Id, k: nat, m: nat)
    requires i < |events| && j < |events| && SentAt(events, i, id, k) && SentAt(events, j, id, m)
    requires ClientRun(events).table.ledger.submitted <= KEYS
    ensures i == j && k == m
    decreases |events|
  {
    hide ClientStep, ClientInv, FrameTaken;
    var n := |events| - 1;
    InvOfPrefix(events);
    if i < n && j < n {
      assert events[..n][..i] == events[..i] && events[..n][..j] == events[..j];
      OneSubmissionPerIdentifier(events[..n], i, j, id, k, m);
    } else if i < n {
      assert events[..n][..i] == events[..i];
      SentBelowCounter(events[..n], i, id, k);
      FrameIsNew(ClientRun(events[..n]), events[n]);
    } else if j < n {
      assert events[..n][..j] == events[..j];
      SentBelowCounter(events[..n], j, id, m);
      FrameIsNew(ClientRun(events[..n]), events[n]);
    }
  }

  lemma SpentStaysSpent(c: Client, e: ClientEvent, id: Id)
    requires ClientInv(c) && id !in c.table.responseIndex && id.counter < c.table.counter
    ensures id !in ClientStep(c, e).table.responseIndex && id.counter < ClientStep(c, e).table.counter
  {
    hide FreshIds, Conserved, Indexed;
  }

  lemma {:induction false} SpentForGood(events: seq<ClientEvent>, later: seq<ClientEvent>, id: Id)
    requires ClientRun(events + later).table.ledger.submitted <= KEYS
    requires id !in ClientRun(events).table.responseIndex && id.counter < ClientRun(events).table.counter
    ensures id !in ClientRun(events + later).table.responseIndex
    ensures id.counter < ClientRun(events + later).table.counter
    decreases |later|
  {
    if later == [] {
      assert events + later == events;
    } else {
      hide ClientStep, ClientInv;
      var all := events + later;
      assert all[..|all| - 1] == events + later[..|later| - 1];
      InvOfPrefix(all);
      SpentForGood(events, later[..|later| - 1], id);
      SpentStaysSpent(ClientRun(all[..|all| - 1]), all[|all| - 1], id);
    }
  }

  /**
   * Once the submission sent under an identifier is answered, or its connection is gone, a response
   * that names the identifier changes nothing, at any later time.
   */
  lemma SpentIdentifierAnswersNothing(
    events: seq<ClientEvent>, later: seq<ClientEvent>, i: nat, id: Id, k: nat, answer: Answer)
    requires i < |events| && SentAt(events, i, id, k)
    requires k in ClientRun(events).table.ledger.answers || !SentLive(events, id, k)
    requires ClientRun(events + later).table.ledger.submitted <= KEYS
    ensures var c := ClientRun(events + later);
            ClientStep(c, ResponseArrives(id, answer)) == c
  {
    SubmittedInPrefix(events, later);
    SentBelowCounter(events, i, id, k);
    if id in ClientRun(events).table.responseIndex {
      var m := ClientRun(events).table.responseIndex[id];
      IndexedExactlyWhen(events, id, m);
      var j: nat :| j < |events| && SentSince(events, j, id, m);
      OneSubmissionPerIdentifier(events, i, j, id, k, m);
      assert false;
    }
    SpentForGood(events, later, id);
    hide ClientInv;
    RequestsAreConserved(events + later);
  }

  lemma {:induction false} SubmittedInPrefix(events: seq<ClientEvent>, later: seq<ClientEvent>)
    ensures ClientRun(events).table.ledger.submitted <= ClientRun(events + later).table.ledger.submitted
    decreases |later|
  {
    if later == [] {
      assert events + later == events;
    } else {
      hide ClientStep;
      var all := events + later;
      assert all[..|all| - 1] == events + later[..|later| - 1];
      SubmittedInPrefix(events, later[..|later| - 1]);
      SubmittedGrows(ClientRun(all[..|all| - 1]), all[|all| - 1]);
    }
  }

  /** An answer once given stays what it is. */
  lemma {:induction false} AnswersAreFinal(events: seq<ClientEvent>, later: seq<ClientEvent>, k: nat)
    requires ClientRun(events + later).table.ledger.submitted <= KEYS
    requires k in ClientRun(events).table.ledger.answers
    ensures k in ClientRun(events + later).table.ledger.answers
    ensures ClientRun(events + later).table.ledger.answers[k] == ClientRun(events).table.ledger.answers[k]
    decreases |later|
  {
    if later == [] {
      assert events + later == events;
    } else {
      hide ClientStep, ClientInv;
      var all := events + later;
      assert all[..|all| - 1] == events + later[..|later| - 1];
      InvOfPrefix(all);
      AnswersAreFinal(events, later[..|later| - 1], k);
      AnswersGrow(ClientRun(all[..|all| - 1]), all[|all| - 1], k);
    }
  }

  /** Stopping answers every pending submission, and no other, with "stopped". */
  lemma StoppingAnswersThePending(events: seq<ClientEvent>, k: nat)
    requires ClientRun(events).table.ledger.submitted <= KEYS
    ensures var before := ClientRun(events);
            var after := ClientStep(before, Stop);
            && after.stopped && after.table.pending == map[]
            && (k in before.table.pending ==>
                  k in after.table.ledger.answers && after.table.ledger.answers[k] == [ClientStopped])
            && (k !in before.table.pending ==>
                  (k in after.table.ledger.answers <==> k in before.table.ledger.answers)
                  && (k in before.table.ledger.answers ==>
                        after.table.ledger.answers[k] == before.table.ledger.answers[k]))
  {
    RequestsAreConserved(events);
    hide FreshIds;
    assert [] + [ClientStopped] == [ClientStopped];
  }

  // ----- what was submitted -----

  datatype Submission = Submission(payload: string, named: Option<string>, mutation: bool)

  function SubmissionOf(e: ClientEvent): Option<Submission> {
    match e
    case SubmitMutation(payload) => Some(Submission(payload, None, true))
    case SubmitNamed(payload, text) => Some(Submission(payload, Some(text), true))
    case SubmitRead(payload) => Some(Submission(payload, None, false))
    case _ => None
  }

  /** A stopped client takes nothing, and a mutation that must draw its identifier needs one left. */
  predicate Takes(c: Client, e: ClientEvent) {
    !c.stopped && (e.SubmitMutation? ==> c.table.counter < U64_MAX)
  }

  /** What was submitted and taken, in order. */
  function Submissions(events: seq<ClientEvent>): seq<Submission> {
    if events == [] then []
    else
      var e := events[|events| - 1];
      var rest := events[..|events| - 1];
      Submissions(rest)
      + if SubmissionOf(e).Some? && Takes(ClientRun(rest), e) then [SubmissionOf(e).value] else []
  }

  /** The table says of submission k what was submitted. */
  predicate Tells(t: Table, k: nat, s: Submission) {
    && k in t.ledger.payloads && t.ledger.payloads[k] == s.payload
    && (k in t.ledger.operations <==> s.mutation)
    && (s.mutation ==>
          if s.named.Some? then t.ledger.operations[k] == Supplied(s.named.value)
          else t.ledger.operations[k].Generated?)
  }

  predicate LedgerTells(t: Table, submissions: seq<Submission>) {
    t.ledger.submitted == |submissions| && forall k: nat :: k < |submissions| ==> Tells(t, k, submissions[k])
  }

  lemma InsertTells(t: Table, payload: string, name: Option<OperationName>, said: Submission, submissions: seq<Submission>)
    requires LedgerTells(t, submissions) && |submissions| !in t.ledger.operations
    requires said.payload == payload && said.mutation == name.Some?
    requires name.Some? ==> if said.named.Some? then name.value == Supplied(said.named.value) else name.value.Generated?
    ensures LedgerTells(Insert(t, payload, name), submissions + [said])
  {
    var all := submissions + [said];
    var after := Insert(t, payload, name);
    forall k: nat | k < |all| ensures Tells(after, k, all[k]) {
      assert k < |submissions| ==> Tells(t, k, submissions[k]);
    }
  }

  /** What keeps the account of submissions keeps what the table says of them. */
  lemma SameLedgerTells(t: Table, after: Table, submissions: seq<Submission>)
    requires LedgerTells(t, submissions)
    requires after.ledger.submitted == t.ledger.submitted && after.ledger.payloads == t.ledger.payloads
    requires after.ledger.operations == t.ledger.operations
    ensures LedgerTells(after, submissions)
  {
    forall k: nat | k < |submissions| ensures Tells(after, k, submissions[k]) {
      assert Tells(t, k, submissions[k]);
    }
  }

  lemma NoNameYet(c: Client)
    requires ClientInv(c)
    ensures c.table.ledger.submitted !in c.table.ledger.operations
  {
    hide Conserved, Indexed;
  }

  lemma OtherStepsSayNothing(c: Client, e: ClientEvent)
    requires SubmissionOf(e).None?
    ensures var after := ClientStep(c, e).table.ledger;
            && after.submitted == c.table.ledger.submitted && after.payloads == c.table.ledger.payloads
            && after.operations == c.table.ledger.operations
  {
    hide AppendedAll, Appended;
  }

  lemma StepTells(c: Client, e: ClientEvent, submissions: seq<Submission>)
    requires ClientInv(c) && LedgerTells(c.table, submissions)
    ensures LedgerTells(ClientStep(c, e).table,
              submissions + if SubmissionOf(e).Some? && Takes(c, e) then [SubmissionOf(e).value] else [])
  {
    NoNameYet(c);
    hide ClientInv, LedgerTells, Insert;
    assert submissions + [] == submissions;
    TellsLength(c.table, submissions);
    match e {
      case SubmitMutation(payload) =>
        var (drawn, id) := Draw(c.table, OperationKind);
        if !c.stopped && id.Some? {
          SameLedgerTells(c.table, drawn, submissions);
          InsertTells(drawn, payload, Some(Generated(id.value)), SubmissionOf(e).value, submissions);
        }
      case SubmitNamed(payload, text) =>
        InsertTells(c.table, payload, Some(Supplied(text)), SubmissionOf(e).value, submissions);
      case SubmitRead(payload) => InsertTells(c.table, payload, None, SubmissionOf(e).value, submissions);
      case _ =>
        OtherStepsSayNothing(c, e);
        hide ClientStep;
        SameLedgerTells(c.table, ClientStep(c, e).table, submissions);
    }
  }

  lemma TellsLength(t: Table, submissions: seq<Submission>)
    requires LedgerTells(t, submissions)
    ensures |submissions| == t.ledger.submitted
  {
  }

  /**
   * Over any run: submission k is the k-th one taken, the table keeps what it said and how it was
   * named, and while it is pending that is what is sent for it.
   */
  lemma {:induction false} SubmissionsAreKept(events: seq<ClientEvent>)
    requires ClientRun(events).table.ledger.submitted <= KEYS
    ensures LedgerTells(ClientRun(events).table, Submissions(events))
  {
    if events != [] {
      hide ClientStep, ClientInv, LedgerTells, SubmissionOf, Takes;
      InvOfPrefix(events);
      SubmissionsAreKept(events[..|events| - 1]);
      StepTells(ClientRun(events[..|events| - 1]), events[|events| - 1], Submissions(events[..|events| - 1]));
    }
  }

  /** Every frame put on the wire says what its submission said. */
  lemma FramesSayWhatWasSubmitted(events: seq<ClientEvent>, i: nat, id: Id, k: nat)
    requires i < |events| && SentAt(events, i, id, k) && ClientRun(events[..i]).table.ledger.submitted <= KEYS
    ensures k < |Submissions(events[..i])|
    ensures var frame := FrameTaken(ClientRun(events[..i]), events[i]).value;
            var said := Submissions(events[..i])[k];
            && frame.payload == said.payload
            && (frame.operationId.Some? <==> said.mutation)
            && (said.mutation && said.named.Some? ==> frame.operationId == Some(Supplied(said.named.value)))
            && (said.mutation && said.named.None? ==> frame.operationId.value.Generated?)
  {
    var c := ClientRun(events[..i]);
    RequestsAreConserved(events[..i]);
    SubmissionsAreKept(events[..i]);
    FrameIsNew(c, events[i]);
    assert Remembers(c.table, k);
    assert k < c.table.ledger.submitted;
    assert Tells(c.table, k, Submissions(events[..i])[k]);
    hide ClientStep, ClientInv, ClientRun, Submissions;
  }
}
