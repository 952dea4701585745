/**
 Whole runs of the client: composing, sending, answers, failures, retries, incoming messages,
 failing database writes and restarts.  `memory` holds the composed messages as the running
 client shows them; a restart reads it back from the database.
 */
module ClientOutbox {
  import opened Options
  import opened ClientStore

  datatype Shown = Shown(conversation: Conversation, body: string, delivery: Delivery)

  /** A text handed to the connection; its position in the log is its request id. */
  datatype Sent = Sent(clientId: int, conversation: Conversation, body: string)

  datatype Controller = Controller(
    store: Store,
    memory: map<int, Shown>,
    nextId: int,
    requests: map<nat, int>,       // request id to client message id
    sent: seq<Sent>)

  const FIRST_ID := -1000
  const FIRST_START := Controller(BLANK, map[], FIRST_ID, map[], [])

  datatype Event =
    | Compose(conversation: Conversation, body: string, network: bool, ready: bool, enqueueFault: bool, fault: bool)
    | Retry(clientId: int, network: bool, ready: bool, fault: bool)
    | AcceptReply(request: nat, messageId: int, seqNo: int, fault: bool)
    | RejectReply(request: nat, retryable: bool, fault: bool)
    | Failure(request: nat, outcomeUnknown: bool, retryable: bool, fault: bool)
    | ResumeOne(clientId: int, fault: bool)
    | Lifecycle(clientId: int, delivery: Delivery, fault: bool)
    | Incoming(conversation: Conversation, batch: seq<Record>, next: int, fault: bool)
    | Restart(next: int)

  predicate HasRecipient(c: Conversation) {
    !c.LocalOnly?
  }

  /** Change the shown state if the table of transitions allows it, and then the stored one. */
  function UpdateMessageState(k: Controller, clientId: int, d: Delivery, fault: bool): Controller {
    if clientId !in k.memory || !CanTransition(k.memory[clientId].delivery, d) then k
    else k.(memory := k.memory[clientId := k.memory[clientId].(delivery := d)],
            store := ClientStore.UpdateDeliveryState(k.store, clientId, d, fault).0)
  }

  function SentText(k: Controller, clientId: int): Controller {
    if clientId !in k.memory then k
    else k.(requests := k.requests[|k.sent| := clientId],
            sent := k.sent + [Sent(clientId, k.memory[clientId].conversation, k.memory[clientId].body)])
  }

  function Composed(k: Controller, conversation: Conversation, body: string, fault: bool): Controller {
    var row := Row(conversation, None, None, body, true, PendingLocal);
    var (store, ok) := EnqueueOutgoing(k.store, Record(k.nextId, row), fault);
    k.(store := store, nextId := k.nextId - 1,
       memory := k.memory[k.nextId := Shown(conversation, body, if ok then PendingLocal else PermanentFailed)])
  }

  /** Client ids start below every stored one, and at -1000 or below. */
  ghost predicate IsNextFree(rows: Rows, next: int) {
    && next <= FIRST_ID
    && (forall c :: c in rows ==> next < c)
    && (next == FIRST_ID || next + 1 in rows)
  }

  function Loaded(rows: Rows): map<int, Shown> {
    map c | c in rows && c < 0 :: Shown(rows[c].conversation, rows[c].body, rows[c].delivery)
  }

  /** Records from the server: settled, and numbered with the server's positive id. */
  predicate FromServer(batch: seq<Record>) {
    ClientStore.Incoming(batch) && forall i :: 0 <= i < |batch| ==> batch[i].clientId > 0
  }

  function Failed(retryable: bool): Delivery {
    if retryable then RetryableFailed else PermanentFailed
  }

  ghost function Step(k: Controller, e: Event): Controller {
    match e
    case Compose(conversation, body, network, ready, enqueueFault, fault) =>
      if body == "" then k
      else
        var k' := Composed(k, conversation, body, enqueueFault);
        if !network || k'.memory[k.nextId].delivery != PendingLocal then k'
        else if !HasRecipient(conversation) then UpdateMessageState(k', k.nextId, PermanentFailed, fault)
        else if !ready then UpdateMessageState(k', k.nextId, Unknown, fault)
        else SentText(UpdateMessageState(k', k.nextId, WaitingAccept, fault), k.nextId)
    case Retry(clientId, network, ready, fault) =>
      if clientId !in k.memory || k.memory[clientId].delivery != RetryableFailed then k
      else if !network then UpdateMessageState(k, clientId, PendingLocal, fault)
      else if !ready || !HasRecipient(k.memory[clientId].conversation) then k
      else SentText(UpdateMessageState(k, clientId, WaitingAccept, fault), clientId)
    case AcceptReply(request, messageId, seqNo, fault) =>
      if request !in k.requests then k
      else
        var clientId := k.requests[request];
        var k' := k.(requests := k.requests - {request});
        if clientId !in k.memory then k'
        else
          var shown := k.memory[clientId];
          k'.(memory := k.memory[clientId := shown.(delivery := Accepted)],
              store := AcceptOutgoing(k.store, clientId, messageId, shown.conversation, seqNo, fault).0)
    case RejectReply(request, retryable, fault) =>
      if request !in k.requests then k
      else UpdateMessageState(k.(requests := k.requests - {request}), k.requests[request], Failed(retryable), fault)
    case Failure(request, outcomeUnknown, retryable, fault) =>
      if request !in k.requests then k
      else UpdateMessageState(k.(requests := k.requests - {request}), k.requests[request],
                              if outcomeUnknown then Unknown else Failed(retryable), fault)
    case ResumeOne(clientId, fault) =>
      if clientId !in k.memory || !HasRecipient(k.memory[clientId].conversation) then k
      else if Settled(k.memory[clientId].delivery) then k
      else SentText(UpdateMessageState(k, clientId, WaitingAccept, fault), clientId)
    case Lifecycle(clientId, d, fault) => UpdateMessageState(k, clientId, d, fault)
    case Incoming(conversation, batch, next, fault) =>
      if !FromServer(batch) then k
      else k.(store := ApplyIncomingBatch(k.store, conversation, batch, next, fault).0)
    case Restart(next) =>
      if !IsNextFree(k.store.messages, next) then k
      else k.(memory := Loaded(k.store.messages), requests := map[], nextId := next)
  }

  ghost function ControllerAt(es: seq<Event>, n: nat): Controller
    requires n <= |es|
  {
    if n == 0 then FIRST_START else Step(ControllerAt(es, n - 1), es[n - 1])
  }

  // ---------------------------------------------------------------- invariants

  /** What is stored of a composed message is shown too, and a settled one is shown settled. */
  ghost predicate Mirrored(rows: Rows, memory: map<int, Shown>) {
    && (forall c :: c in rows && c < 0 ==>
          && c in memory && rows[c].outgoing
          && rows[c].conversation == memory[c].conversation && rows[c].body == memory[c].body
          && (Settled(rows[c].delivery) ==> Settled(memory[c].delivery)))
    && (forall c :: c in rows && c >= 0 ==> Settled(rows[c].delivery))
    && (forall c :: c in memory ==> c < 0 && (!Settled(memory[c].delivery) ==> c in rows))
  }

  ghost predicate FreshIds(rows: Rows, memory: map<int, Shown>, nextId: int) {
    nextId <= FIRST_ID && (forall c :: c in rows ==> nextId < c) && (forall c :: c in memory ==> nextId < c)
  }

  /** Whatever was sent is the stored message of its client id. */
  ghost predicate SentStored(rows: Rows, sent: seq<Sent>) {
    forall i :: 0 <= i < |sent| ==>
      && sent[i].clientId in rows && sent[i].clientId < 0
      && sent[i].conversation == rows[sent[i].clientId].conversation && sent[i].body == rows[sent[i].clientId].body
  }

  ghost predicate RequestsKnown(rows: Rows, requests: map<nat, int>) {
    forall q :: q in requests ==> requests[q] in rows && requests[q] < 0
  }

  ghost predicate Inv(k: Controller) {
    && ClientStore.Inv(k.store)
    && Mirrored(k.store.messages, k.memory)
    && FreshIds(k.store.messages, k.memory, k.nextId)
    && SentStored(k.store.messages, k.sent)
    && RequestsKnown(k.store.messages, k.requests)
  }

  /** Rows stay with their conversation, text and origin, a settled row stays settled, a server row keeps its id. */
  ghost predicate RowsKept(a: Rows, b: Rows) {
    forall c :: c in a ==>
      && c in b && a[c].conversation == b[c].conversation && a[c].body == b[c].body && a[c].outgoing == b[c].outgoing
      && (Settled(a[c].delivery) ==> Settled(b[c].delivery))
      && (c > 0 ==> a[c].messageId == b[c].messageId)
  }

  lemma RowsKeptReferences(a: Rows, b: Rows, sent: seq<Sent>, requests: map<nat, int>)
    requires RowsKept(a, b)
    ensures SentStored(a, sent) ==> SentStored(b, sent)
    ensures RequestsKnown(a, requests) ==> RequestsKnown(b, requests)
  {
  }

  lemma UnsettledStaysUnder(from: Delivery, to: Delivery)
    requires CanTransition(from, to) && Settled(from)
    ensures Settled(to)
  {
  }

  lemma MirroredUpdate(rows: Rows, memory: map<int, Shown>, clientId: int, d: Delivery, written: bool)
    requires Mirrored(rows, memory) && clientId in memory && (Settled(memory[clientId].delivery) ==> Settled(d))
    ensures var later := if written && clientId in rows then rows[clientId := rows[clientId].(delivery := d)] else rows;
            && Mirrored(later, memory[clientId := memory[clientId].(delivery := d)])
            && RowsKept(rows, later)
            && (clientId in rows && Settled(rows[clientId].delivery) ==> Settled(d))
  {
    hide Settled;
  }

  lemma UpdateKeeps(k: Controller, clientId: int, d: Delivery, fault: bool)
    requires Inv(k)
    ensures var u := UpdateMessageState(k, clientId, d, fault);
            && Inv(u) && RowsKept(k.store.messages, u.store.messages)
            && u.sent == k.sent && u.requests == k.requests && u.nextId == k.nextId
            && (clientId in k.memory ==> clientId in u.memory)
  {
    hide ClientStore.Inv, CanTransition, Settled, SentStored, RequestsKnown, Mirrored, RowsKept;
    var u := UpdateMessageState(k, clientId, d, fault);
    RowsKeptReflexive(k.store.messages);
    if clientId in k.memory && CanTransition(k.memory[clientId].delivery, d) {
      if Settled(k.memory[clientId].delivery) {
        UnsettledStaysUnder(k.memory[clientId].delivery, d);
      }
      MirroredUpdate(k.store.messages, k.memory, clientId, d, !fault);
      UpdateKeepsInv(k.store, clientId, d, fault);
    }
    RowsKeptReferences(k.store.messages, u.store.messages, k.sent, k.requests);
  }

  lemma SentTextKeeps(k: Controller, clientId: int)
    requires Inv(k) && clientId in k.store.messages && clientId < 0
    ensures Inv(SentText(k, clientId))
  {
    hide ClientStore.Inv, FreshIds;
  }

  lemma ComposedKeeps(k: Controller, conversation: Conversation, body: string, fault: bool)
    requires Inv(k)
    ensures var u := Composed(k, conversation, body, fault);
            && Inv(u) && RowsKept(k.store.messages, u.store.messages)
            && k.nextId in u.memory && (u.memory[k.nextId].delivery == PendingLocal ==> k.nextId in u.store.messages)
  {
    var u := Composed(k, conversation, body, fault);
    EnqueueKeepsInv(k.store, Record(k.nextId, Row(conversation, None, None, body, true, PendingLocal)), fault);
    hide ClientStore.Inv, Fits, SentStored, RequestsKnown;
    assert RowsKept(k.store.messages, u.store.messages);
    RowsKeptReferences(k.store.messages, u.store.messages, k.sent, k.requests);
  }

  /** Accepting a composed message, in the database too or only on the screen. */
  lemma MirroredAccept(rows: Rows, memory: map<int, Shown>, clientId: int, row: Row)
    requires Mirrored(rows, memory) && clientId < 0 && clientId in rows && clientId in memory
    requires row.conversation == rows[clientId].conversation && row.body == rows[clientId].body
    requires row.outgoing == rows[clientId].outgoing && row.delivery == Accepted
    ensures var shown := memory[clientId := memory[clientId].(delivery := Accepted)];
            Mirrored(rows, shown) && Mirrored(rows[clientId := row], shown) && RowsKept(rows, rows[clientId := row])
  {
  }

  lemma FreshSame(rows: Rows, memory: map<int, Shown>, later: Rows, shown: map<int, Shown>, nextId: int)
    requires FreshIds(rows, memory, nextId) && later.Keys == rows.Keys && shown.Keys == memory.Keys
    ensures FreshIds(later, shown, nextId)
  {
    assert forall c :: c in later ==> c in rows.Keys;
    assert forall c :: c in shown ==> c in memory.Keys;
  }

  /** What an acceptance does to the rows: nothing, or one row takes the server's values. */
  lemma AcceptedRows(s: Store, clientId: int, messageId: int, conversation: Conversation, seqNo: int, fault: bool)
    requires clientId in s.messages
    ensures var u := AcceptOutgoing(s, clientId, messageId, conversation, seqNo, fault).0;
            var row := s.messages[clientId].(messageId := Some(messageId), seqNo := Some(seqNo), delivery := Accepted);
            u.messages == s.messages || u.messages == s.messages[clientId := row]
  {
    hide MayAccept;
  }

  lemma AcceptReplyKeeps(k: Controller, request: nat, messageId: int, seqNo: int, fault: bool)
    requires Inv(k)
    ensures var u := Step(k, AcceptReply(request, messageId, seqNo, fault));
            Inv(u) && RowsKept(k.store.messages, u.store.messages)
  {
    hide ClientStore.Inv, SentStored, Mirrored, FreshIds, RowsKept, AcceptOutgoing, Settled;
    var u := Step(k, AcceptReply(request, messageId, seqNo, fault));
    RowsKeptReflexive(k.store.messages);
    if request in k.requests && k.requests[request] in k.memory {
      var clientId := k.requests[request];
      var row := k.store.messages[clientId].(messageId := Some(messageId), seqNo := Some(seqNo), delivery := Accepted);
      AcceptKeepsInv(k.store, clientId, messageId, k.memory[clientId].conversation, seqNo, fault);
      AcceptedRows(k.store, clientId, messageId, k.memory[clientId].conversation, seqNo, fault);
      MirroredAccept(k.store.messages, k.memory, clientId, row);
      FreshSame(k.store.messages, k.memory, u.store.messages, u.memory, k.nextId);
    }
    RowsKeptReferences(k.store.messages, u.store.messages, k.sent, k.requests);
    RowsKeptReferences(k.store.messages, u.store.messages, k.sent, u.requests);
  }

  /** Rows from the server leave what is there and what is shown alone. */
  lemma MirroredGrow(rows: Rows, later: Rows, memory: map<int, Shown>, nextId: int)
    requires Mirrored(rows, memory) && FreshIds(rows, memory, nextId)
    requires forall c :: c in rows ==> c in later && later[c] == rows[c]
    requires forall c :: c in later && c !in rows ==> c > 0 && Settled(later[c].delivery)
    ensures Mirrored(later, memory) && FreshIds(later, memory, nextId) && RowsKept(rows, later)
  {
    hide Settled;
  }

  lemma BatchRows(rows: Rows, batch: seq<Record>)
    requires FromServer(batch)
    ensures var later := OfferedAll(rows, batch);
            && (forall c :: c in rows ==> c in later && later[c] == rows[c])
            && (forall c :: c in later && c !in rows ==> c > 0 && Settled(later[c].delivery))
  {
    hide Settled, KeysKept, Fits;
    BatchCovers(rows, batch);
    var later := OfferedAll(rows, batch);
    forall c | c in later && c !in rows
      ensures c > 0 && Settled(later[c].delivery)
    {
      assert Record(c, later[c]) in batch;
    }
  }

  lemma IncomingKeeps(k: Controller, conversation: Conversation, batch: seq<Record>, next: int, fault: bool)
    requires Inv(k)
    ensures var u := Step(k, Incoming(conversation, batch, next, fault));
            Inv(u) && RowsKept(k.store.messages, u.store.messages)
  {
    hide SentStored, RequestsKnown, Mirrored, FreshIds, RowsKept, OfferedAll, Settled, Unique;
    var u := Step(k, Incoming(conversation, batch, next, fault));
    RowsKeptReflexive(k.store.messages);
    if FromServer(batch) && !fault {
      BatchKeepsInv(k.store, batch);
      BatchRows(k.store.messages, batch);
      MirroredGrow(k.store.messages, u.store.messages, k.memory, k.nextId);
    }
    RowsKeptReferences(k.store.messages, u.store.messages, k.sent, k.requests);
  }

  lemma RestartKeeps(k: Controller, next: int)
    requires Inv(k)
    ensures var u := Step(k, Restart(next));
            Inv(u) && RowsKept(k.store.messages, u.store.messages)
  {
    hide ClientStore.Inv, SentStored, Settled;
  }

  lemma ComposeKeeps(k: Controller, e: Event)
    requires Inv(k) && e.Compose?
    ensures Inv(Step(k, e)) && RowsKept(k.store.messages, Step(k, e).store.messages)
  {
    hide Inv, Composed, UpdateMessageState, CanTransition, Settled;
    if e.body != "" {
      ComposedKeeps(k, e.conversation, e.body, e.enqueueFault);
      var u := Composed(k, e.conversation, e.body, e.enqueueFault);
      UpdateKeeps(u, k.nextId, PermanentFailed, e.fault);
      UpdateKeeps(u, k.nextId, Unknown, e.fault);
      UpdateKeeps(u, k.nextId, WaitingAccept, e.fault);
      if u.memory[k.nextId].delivery == PendingLocal {
        assert k.nextId < 0 by { IdsNegative(k); }
        SentTextKeeps(UpdateMessageState(u, k.nextId, WaitingAccept, e.fault), k.nextId);
      }
    }
  }

  lemma IdsNegative(k: Controller)
    requires Inv(k)
    ensures k.nextId < 0
    ensures forall c :: c in k.memory && !Settled(k.memory[c].delivery) ==> c < 0 && c in k.store.messages
  {
    hide ClientStore.Inv, SentStored, RequestsKnown;
  }

  lemma SendAgainKeeps(k: Controller, clientId: int, fault: bool)
    requires Inv(k) && clientId in k.memory && !Settled(k.memory[clientId].delivery)
    ensures var u := SentText(UpdateMessageState(k, clientId, WaitingAccept, fault), clientId);
            Inv(u) && RowsKept(k.store.messages, u.store.messages)
  {
    IdsNegative(k);
    hide Inv, UpdateMessageState, Settled;
    UpdateKeeps(k, clientId, WaitingAccept, fault);
    SentTextKeeps(UpdateMessageState(k, clientId, WaitingAccept, fault), clientId);
  }

  lemma AnswerKeeps(k: Controller, request: nat, d: Delivery, fault: bool)
    requires Inv(k) && request in k.requests
    ensures var u := UpdateMessageState(k.(requests := k.requests - {request}), k.requests[request], d, fault);
            Inv(u) && RowsKept(k.store.messages, u.store.messages)
  {
    hide ClientStore.Inv, Mirrored, FreshIds, SentStored, UpdateMessageState;
    UpdateKeeps(k.(requests := k.requests - {request}), k.requests[request], d, fault);
  }

  lemma StepKeeps(k: Controller, e: Event)
    requires Inv(k)
    ensures Inv(Step(k, e)) && RowsKept(k.store.messages, Step(k, e).store.messages)
  {
    hide Inv, RowsKept, UpdateMessageState, Composed, AcceptOutgoing, ApplyIncomingBatch, Loaded, CanTransition;
    assert RowsKept(k.store.messages, k.store.messages) by { RowsKeptReflexive(k.store.messages); }
    match e
    case Compose(_, _, _, _, _, _) => ComposeKeeps(k, e);
    case Retry(clientId, network, ready, fault) =>
      UpdateKeeps(k, clientId, PendingLocal, fault);
      if clientId in k.memory && k.memory[clientId].delivery == RetryableFailed {
        SendAgainKeeps(k, clientId, fault);
      }
    case AcceptReply(request, messageId, seqNo, fault) => AcceptReplyKeeps(k, request, messageId, seqNo, fault);
    case RejectReply(request, retryable, fault) =>
      if request in k.requests {
        AnswerKeeps(k, request, Failed(retryable), fault);
      }
    case Failure(request, unknown, retryable, fault) =>
      if request in k.requests {
        AnswerKeeps(k, request, if unknown then Unknown else Failed(retryable), fault);
      }
    case ResumeOne(clientId, fault) =>
      if clientId in k.memory && !Settled(k.memory[clientId].delivery) {
        SendAgainKeeps(k, clientId, fault);
      }
    case Lifecycle(clientId, d, fault) => UpdateKeeps(k, clientId, d, fault);
    case Incoming(conversation, batch, next, fault) => IncomingKeeps(k, conversation, batch, next, fault);
    case Restart(next) => RestartKeeps(k, next);
  }

  lemma RowsKeptReflexive(rows: Rows)
    ensures RowsKept(rows, rows)
  {
  }

  lemma RowsKeptTransitive(a: Rows, b: Rows, c: Rows)
    requires RowsKept(a, b) && RowsKept(b, c)
    ensures RowsKept(a, c)
  {
    hide Settled;
  }

  lemma {:induction false} RunKeepsInv(es: seq<Event>, n: nat)
    requires n <= |es|
    ensures Inv(ControllerAt(es, n))
  {
    if n > 0 {
      RunKeepsInv(es, n - 1);
      hide Inv, Step;
      StepKeeps(ControllerAt(es, n - 1), es[n - 1]);
    }
  }

  // ---------------------------------------------------------------- what every run keeps

  /** In every run the database has an outbox row for exactly the outgoing, unsettled messages. */
  lemma OutboxEquivalence(es: seq<Event>, n: nat)
    requires n <= |es|
    ensures OutboxExact(ControllerAt(es, n).store) && Unique(ControllerAt(es, n).store.messages)
  {
    RunKeepsInv(es, n);
  }

  /** In the database a message is never lost or rewritten, and once settled it stays settled. */
  lemma {:induction false} SettledForever(es: seq<Event>, i: nat, j: nat)
    requires i <= j <= |es|
    ensures RowsKept(ControllerAt(es, i).store.messages, ControllerAt(es, j).store.messages)
  {
    hide Inv, Step, RowsKept;
    if i == j {
      RowsKeptReflexive(ControllerAt(es, i).store.messages);
    } else {
      SettledForever(es, i, j - 1);
      RunKeepsInv(es, j - 1);
      StepKeeps(ControllerAt(es, j - 1), es[j - 1]);
      RowsKeptTransitive(ControllerAt(es, i).store.messages, ControllerAt(es, j - 1).store.messages,
                         ControllerAt(es, j).store.messages);
    }
  }

  /** A client message id names one text to one recipient, in all its sends and across restarts. */
  lemma OneMessagePerId(es: seq<Event>, n: nat, i: nat, j: nat)
    requires n <= |es| && i < |ControllerAt(es, n).sent| && j < |ControllerAt(es, n).sent|
    requires ControllerAt(es, n).sent[i].clientId == ControllerAt(es, n).sent[j].clientId
    ensures ControllerAt(es, n).sent[i] == ControllerAt(es, n).sent[j] && ControllerAt(es, n).sent[i].clientId < 0
  {
    RunKeepsInv(es, n);
    hide ClientStore.Inv, Mirrored, FreshIds, Step;
  }

  /** An answer that arrives settles its message in the database exactly when the row may take it. */
  lemma ReplySettlesIff(es: seq<Event>, n: nat, request: nat, messageId: int, seqNo: int)
    requires n <= |es| && request in ControllerAt(es, n).requests
    ensures var k := ControllerAt(es, n);
            var clientId := k.requests[request];
            var u := Step(k, AcceptReply(request, messageId, seqNo, false));
            && clientId in u.store.messages
            && (MayAccept(k.store, clientId, messageId, seqNo) ==>
                  && u.store.messages[clientId].messageId == Some(messageId)
                  && u.store.messages[clientId].delivery == Accepted && clientId !in u.store.outbox)
            && (!MayAccept(k.store, clientId, messageId, seqNo) ==> u.store == k.store)
  {
    RunKeepsInv(es, n);
    hide ClientStore.Inv, SentStored, FreshIds, MayAccept;
  }

  /** The event gives a conversation its first cursor, and a negative one. */
  predicate StartsNegative(k: Controller, e: Event, conversation: Conversation) {
    && conversation !in k.store.cursors
    && match e
       case AcceptReply(request, messageId, seqNo, fault) =>
         && request in k.requests && k.requests[request] in k.memory && seqNo < 0 && !fault
         && k.memory[k.requests[request]].conversation == conversation
         && MayAccept(k.store, k.requests[request], messageId, seqNo)
       case Incoming(c, batch, next, fault) => c == conversation && FromServer(batch) && next < 0 && !fault
       case _ => false
  }

  /** Only answers and batches touch the cursors. */
  lemma OtherEventsKeepCursors(k: Controller, e: Event)
    requires !e.AcceptReply? && !e.Incoming?
    ensures Step(k, e).store.cursors == k.store.cursors
  {
    hide UpdateMessageState, Composed, Loaded, Settled, SentText;
    match e
    case Compose(conversation, body, network, ready, enqueueFault, fault) =>
      HelpersKeepCursors(k, k.nextId, PermanentFailed, conversation, body, enqueueFault);
      var u := Composed(k, conversation, body, enqueueFault);
      HelpersKeepCursors(u, k.nextId, PermanentFailed, conversation, body, fault);
      HelpersKeepCursors(u, k.nextId, Unknown, conversation, body, fault);
      HelpersKeepCursors(u, k.nextId, WaitingAccept, conversation, body, fault);
      SendKeepsCursors(UpdateMessageState(u, k.nextId, WaitingAccept, fault), k.nextId);
    case Retry(c, _, _, fault) =>
      HelpersKeepCursors(k, c, PendingLocal, LocalOnly(""), "", fault);
      HelpersKeepCursors(k, c, WaitingAccept, LocalOnly(""), "", fault);
      SendKeepsCursors(UpdateMessageState(k, c, WaitingAccept, fault), c);
    case ResumeOne(c, fault) =>
      HelpersKeepCursors(k, c, WaitingAccept, LocalOnly(""), "", fault);
      SendKeepsCursors(UpdateMessageState(k, c, WaitingAccept, fault), c);
    case RejectReply(request, retryable, fault) =>
      if request in k.requests {
        HelpersKeepCursors(k.(requests := k.requests - {request}), k.requests[request], Failed(retryable), LocalOnly(""), "", fault);
      }
    case Failure(request, unknown, retryable, fault) =>
      if request in k.requests {
        HelpersKeepCursors(k.(requests := k.requests - {request}), k.requests[request],
                           if unknown then Unknown else Failed(retryable), LocalOnly(""), "", fault);
      }
    case Lifecycle(c, d, fault) => HelpersKeepCursors(k, c, d, LocalOnly(""), "", fault);
    case _ =>
  }

  lemma HelpersKeepCursors(k: Controller, clientId: int, d: Delivery, conversation: Conversation, body: string, fault: bool)
    ensures UpdateMessageState(k, clientId, d, fault).store.cursors == k.store.cursors
    ensures Composed(k, conversation, body, fault).store.cursors == k.store.cursors
  {
    hide CanTransition, Settled, Fits;
  }

  lemma SendKeepsCursors(k: Controller, clientId: int)
    ensures SentText(k, clientId).store == k.store
  {
  }

  /** The cursor a sync starts from goes back at a step exactly when the server sends a first, negative one. */
  lemma CursorBackIff(k: Controller, e: Event, conversation: Conversation)
    ensures SyncCursor(Step(k, e).store, conversation) < SyncCursor(k.store, conversation)
            <==> StartsNegative(k, e, conversation)
    ensures conversation in k.store.cursors ==>
              conversation in Step(k, e).store.cursors && k.store.cursors[conversation] <= Step(k, e).store.cursors[conversation]
  {
    hide MayAccept, OfferedAll, FromServer;
    match e
    case AcceptReply(request, messageId, seqNo, fault) =>
      if request in k.requests && k.requests[request] in k.memory {
        AcceptCursorBackIff(k.store, k.requests[request], messageId, k.memory[k.requests[request]].conversation, seqNo, fault, conversation);
      }
    case Incoming(c, batch, next, fault) => CursorNeverBackIff(k.store, c, batch, next, conversation);
    case _ => OtherEventsKeepCursors(k, e);
  }

  /** Once a conversation has a cursor, no batch, answer, failed write or restart ever moves it back. */
  lemma {:induction false} CursorForward(es: seq<Event>, i: nat, j: nat, conversation: Conversation)
    requires i <= j <= |es| && conversation in ControllerAt(es, i).store.cursors
    ensures conversation in ControllerAt(es, j).store.cursors
    ensures ControllerAt(es, i).store.cursors[conversation] <= ControllerAt(es, j).store.cursors[conversation]
  {
    if i < j {
      hide Step, SyncCursor, StartsNegative;
      CursorForward(es, i, j - 1, conversation);
      CursorBackIff(ControllerAt(es, j - 1), es[j - 1], conversation);
    }
  }

  /** A restarted client shows as unsettled exactly the messages that have an outbox row. */
  lemma RestartShowsOutbox(es: seq<Event>, n: nat, next: int, c: int)
    requires n <= |es| && IsNextFree(ControllerAt(es, n).store.messages, next)
    ensures var u := Step(ControllerAt(es, n), Restart(next));
            c in u.store.outbox <==> c in u.memory && !Settled(u.memory[c].delivery)
  {
    RunKeepsInv(es, n);
    hide Unique, SentStored, FreshIds, RequestsKnown, Settled;
  }

  /** After every restart each message with an outbox row is sent again, with its stored text. */
  lemma OutboxIsResent(es: seq<Event>, n: nat, next: int, c: int, fault: bool)
    requires n <= |es| && IsNextFree(ControllerAt(es, n).store.messages, next)
    requires c in ControllerAt(es, n).store.outbox && c in ControllerAt(es, n).store.messages
    requires HasRecipient(ControllerAt(es, n).store.messages[c].conversation)
    ensures var k := ControllerAt(es, n);
            var row := k.store.messages[c];
            Step(Step(k, Restart(next)), ResumeOne(c, fault)).sent == k.sent + [Sent(c, row.conversation, row.body)]
  {
    RestartShowsOutbox(es, n, next, c);
    var k := ControllerAt(es, n);
    var u := Step(k, Restart(next));
    assert c in u.memory && u.memory[c] == Shown(k.store.messages[c].conversation, k.store.messages[c].body, k.store.messages[c].delivery);
    ResendKeepsText(u, c, fault);
  }

  lemma ResendKeepsText(k: Controller, c: int, fault: bool)
    requires c in k.memory && HasRecipient(k.memory[c].conversation) && !Settled(k.memory[c].delivery)
    ensures Step(k, ResumeOne(c, fault)).sent == k.sent + [Sent(c, k.memory[c].conversation, k.memory[c].body)]
  {
    hide CanTransition, Settled;
  }

  // ---------------------------------------------------------------- an acceptance that cannot be stored

  lemma BlockedAcceptance(k: Controller, copy: int, request: nat, messageId: int, seqNo: int, fault: bool)
    requires Inv(k) && copy > 0 && copy in k.store.messages && k.store.messages[copy].messageId == Some(messageId)
    ensures Step(k, AcceptReply(request, messageId, seqNo, fault)).store == k.store
  {
    hide Unique, OutboxExact, SentStored, FreshIds, Mirrored, CanTransition, Settled;
    if request in k.requests {
      var clientId := k.requests[request];
      var row := k.store.messages[clientId].(messageId := Some(messageId), seqNo := Some(seqNo));
      assert Clash(k.store.messages[copy], row);
      assert !MayAccept(k.store, clientId, messageId, seqNo);
    }
  }

  /**
   Once the server's copy of a message is stored under the server's id, then for the rest of every
   run no answer with that id can be stored for a composed message: the database stays as it is.
   */
  lemma CopyBlocksForever(es: seq<Event>, i: nat, j: nat, copy: int, messageId: int)
    requires i <= j <= |es| && copy > 0 && copy in ControllerAt(es, i).store.messages
    requires ControllerAt(es, i).store.messages[copy].messageId == Some(messageId)
    ensures copy in ControllerAt(es, j).store.messages
    ensures ControllerAt(es, j).store.messages[copy].messageId == Some(messageId)
    ensures forall request, seqNo, fault ::
              Step(ControllerAt(es, j), AcceptReply(request, messageId, seqNo, fault)).store == ControllerAt(es, j).store
  {
    hide Inv, Step, ControllerAt;
    SettledForever(es, i, j);
    RunKeepsInv(es, j);
    forall request, seqNo, fault
      ensures Step(ControllerAt(es, j), AcceptReply(request, messageId, seqNo, fault)).store == ControllerAt(es, j).store
    {
      BlockedAcceptance(ControllerAt(es, j), copy, request, messageId, seqNo, fault);
    }
  }

  /** The server's copy of a message whose answer was lost. */
  function Copy(to: Conversation, body: string, messageId: int, seqNo: int): Record {
    Record(messageId, Row(to, Some(messageId), Some(seqNo), body, true, Accepted))
  }

  /** The answer is lost, sync brings the message back under the server's id, and then it is resent. */
  function SyncedFirst(to: Conversation, body: string, messageId: int, seqNo: int): seq<Event> {
    [Compose(to, body, true, true, false, false), Failure(0, true, false, false),
     Incoming(to, [Copy(to, body, messageId, seqNo)], seqNo, false), ResumeOne(FIRST_ID, false),
     AcceptReply(1, messageId, seqNo, false)]
  }

  lemma SyncedFirstStart(to: Conversation, body: string, messageId: int, seqNo: int)
    requires HasRecipient(to) && body != ""
    ensures ControllerAt(SyncedFirst(to, body, messageId, seqNo), 2) ==
            Controller(Store(map[FIRST_ID := Row(to, None, None, body, true, Unknown)], {FIRST_ID}, map[]),
                       map[FIRST_ID := Shown(to, body, Unknown)], FIRST_ID - 1, map[],
                       [Sent(FIRST_ID, to, body)])
  {
    var es := SyncedFirst(to, body, messageId, seqNo);
    assert ControllerAt(es, 0) == FIRST_START;
    var k1 := ControllerAt(es, 1);
    assert k1 == Step(FIRST_START, es[0]);
    assert k1.requests == map[0 := FIRST_ID] && k1.memory == map[FIRST_ID := Shown(to, body, WaitingAccept)];
    assert k1.store.messages == map[FIRST_ID := Row(to, None, None, body, true, WaitingAccept)];
    assert ControllerAt(es, 2) == Step(k1, es[1]);
  }

  lemma SyncedFirstCopy(to: Conversation, body: string, messageId: int, seqNo: int)
    requires HasRecipient(to) && body != "" && messageId > 0
    ensures var es := SyncedFirst(to, body, messageId, seqNo);
            var k2, k3 := ControllerAt(es, 2), ControllerAt(es, 3);
            && k3.store.messages == k2.store.messages[messageId := Copy(to, body, messageId, seqNo).row]
            && k3.store.outbox == k2.store.outbox && k3.memory == k2.memory && k3.sent == k2.sent
  {
    hide Composed, AcceptOutgoing, Loaded, UpdateMessageState;
    var es := SyncedFirst(to, body, messageId, seqNo);
    SyncedFirstStart(to, body, messageId, seqNo);
    var k2 := ControllerAt(es, 2);
    var rows, copy := k2.store.messages, Copy(to, body, messageId, seqNo);
    assert Offered(rows, copy) == rows[messageId := copy.row];
    assert OfferedAll(rows, [copy]) == Offered(rows, copy) by {
      assert [copy][..0] == [];
    }
    assert ControllerAt(es, 3) == Step(k2, es[2]);
  }

  lemma SyncedFirstResent(to: Conversation, body: string, messageId: int, seqNo: int)
    requires HasRecipient(to) && body != "" && messageId > 0
    ensures var k4 := ControllerAt(SyncedFirst(to, body, messageId, seqNo), 4);
            && messageId in k4.store.messages && k4.store.messages[messageId] == Copy(to, body, messageId, seqNo).row
            && FIRST_ID in k4.store.messages && k4.store.messages[FIRST_ID].delivery == WaitingAccept
            && k4.store.outbox == {FIRST_ID} && FIRST_ID in k4.memory && 1 in k4.requests && k4.requests[1] == FIRST_ID
  {
    SyncedFirstStart(to, body, messageId, seqNo);
    SyncedFirstCopy(to, body, messageId, seqNo);
    var es := SyncedFirst(to, body, messageId, seqNo);
    var k3 := ControllerAt(es, 3);
    assert ControllerAt(es, 4) == Step(k3, es[3]);
    ResumeUnknown(k3, FIRST_ID);
    hide Step, ControllerAt;
  }

  lemma ResumeUnknown(k: Controller, c: int)
    requires c in k.memory && HasRecipient(k.memory[c].conversation) && k.memory[c].delivery == Unknown
    requires c in k.store.messages
    ensures var u := Step(k, ResumeOne(c, false));
            && u.store.messages == k.store.messages[c := k.store.messages[c].(delivery := WaitingAccept)]
            && u.store.outbox == k.store.outbox && c in u.memory
            && u.requests == k.requests[|k.sent| := c]
  {
  }

  /** Then the answer is shown as accepted, but the database still has the message waiting in the outbox. */
  lemma SyncedCopyBlocksAcceptance(to: Conversation, body: string, messageId: int, seqNo: int)
    requires HasRecipient(to) && body != "" && messageId > 0
    ensures var k := ControllerAt(SyncedFirst(to, body, messageId, seqNo), 5);
            && FIRST_ID in k.store.outbox && FIRST_ID in k.store.messages && !Settled(k.store.messages[FIRST_ID].delivery)
            && FIRST_ID in k.memory && Settled(k.memory[FIRST_ID].delivery)
  {
    SyncedFirstResent(to, body, messageId, seqNo);
    var es := SyncedFirst(to, body, messageId, seqNo);
    var k4 := ControllerAt(es, 4);
    AcceptBlockedIff(k4.store, FIRST_ID, messageId, k4.memory[FIRST_ID].conversation, seqNo);
    hide AcceptOutgoing;
    assert ControllerAt(es, 5) == Step(k4, es[4]);
  }
}
