/** What becomes of a composed message: after composing, after an answer, after a failure, after a retry. */
module OutboxOutcomes {
  import opened Options
  import opened ClientStore
  import opened ClientOutbox

  /** The transitions of a message, told by where they lead. */
  lemma TransitionsByTarget(from: Delivery, to: Delivery)
    ensures CanTransition(from, to) <==>
            match to
            case PendingLocal => from == RetryableFailed
            case WaitingAccept => !Settled(from) && from != WaitingAccept
            case Unknown => from == PendingLocal || from == WaitingAccept
            case RetryableFailed => !Settled(from) && from != RetryableFailed
            case PermanentFailed => !Settled(from)
            case Accepted => !Settled(from) && from != PendingLocal
            case Delivered => from == Accepted || from == Unknown
            case Read => from == Accepted || from == Delivered || from == Unknown
  {
  }

  // ---------------------------------------------------------------- composing

  lemma FreshFits(rows: Rows, clientId: int, conversation: Conversation, body: string)
    requires forall c :: c in rows ==> clientId < c
    ensures Fits(rows, Record(clientId, Row(conversation, None, None, body, true, PendingLocal)))
  {
  }

  lemma ComposedStored(k: Controller, conversation: Conversation, body: string)
    requires ClientOutbox.Inv(k)
    ensures var u, c := Composed(k, conversation, body, false), k.nextId;
            && c !in k.store.messages && c !in k.memory && c < 0
            && c in u.store.messages && u.store.messages[c] == Row(conversation, None, None, body, true, PendingLocal)
            && c in u.store.outbox && u.memory == k.memory[c := Shown(conversation, body, PendingLocal)]
            && u.sent == k.sent
  {
    hide Fits, SentStored, RequestsKnown;
    FreshFits(k.store.messages, k.nextId, conversation, body);
    assert k.nextId !in k.store.outbox by { OutboxHasRows(k.store, k.nextId); }
  }

  lemma OutboxHasRows(s: Store, c: int)
    requires ClientStore.Inv(s) && c !in s.messages
    ensures c !in s.outbox
  {
  }

  /** What the sender sees of a new message. */
  ghost predicate ShownAs(d: Delivery, conversation: Conversation, network: bool, ready: bool) {
    && (!network ==> d == PendingLocal)
    && (network && !HasRecipient(conversation) ==> d == PermanentFailed)
    && (network && HasRecipient(conversation) && !ready ==> d == Unknown)
    && (network && HasRecipient(conversation) && ready ==> d == WaitingAccept)
  }

  /**
   In every run a composed message is stored with its text under an id never used before; it is
   sent at once exactly when the client is ready and there is a recipient, and it stays in the
   outbox unless there is nobody to send it to.
   */
  lemma ComposeOutcome(es: seq<Event>, n: nat, conversation: Conversation, body: string, network: bool, ready: bool)
    requires n <= |es| && body != ""
    ensures var k := ControllerAt(es, n);
            var u, c := Step(k, Compose(conversation, body, network, ready, false, false)), k.nextId;
            && c !in k.store.messages && c !in k.memory
            && c in u.store.messages && c in u.memory
            && u.store.messages[c].conversation == conversation && u.store.messages[c].body == body
            && u.memory[c].conversation == conversation && u.memory[c].body == body
            && ShownAs(u.memory[c].delivery, conversation, network, ready)
            && u.store.messages[c].delivery == u.memory[c].delivery
            && (c in u.store.outbox <==> !network || HasRecipient(conversation))
            && u.sent == k.sent + if network && HasRecipient(conversation) && ready then [Sent(c, conversation, body)] else []
  {
    hide ControllerAt;
    RunKeepsInv(es, n);
    var k := ControllerAt(es, n);
    ComposedStored(k, conversation, body);
    hide ClientOutbox.Inv, Composed;
  }

  /** When the database refuses it, the message is shown as failed and goes nowhere. */
  lemma RefusedComposeGoesNowhere(k: Controller, conversation: Conversation, body: string, network: bool, ready: bool, fault: bool)
    requires body != ""
    ensures var u := Step(k, Compose(conversation, body, network, ready, true, fault));
            && u.store == k.store && u.sent == k.sent && u.requests == k.requests
            && k.nextId in u.memory && u.memory[k.nextId] == Shown(conversation, body, PermanentFailed)
  {
    hide CanTransition, Fits;
  }

  // ---------------------------------------------------------------- answers and failures

  lemma KnownRequest(k: Controller, request: nat)
    requires ClientOutbox.Inv(k) && request in k.requests
    ensures k.requests[request] in k.memory && k.requests[request] in k.store.messages
            && k.store.messages[k.requests[request]].outgoing
  {
    hide ClientStore.Inv, FreshIds, SentStored, Settled;
  }

  /** A message whose shown state may change to `d` is shown and stored as `d`, and owed exactly if that is unsettled. */
  lemma UpdateOutcome(k: Controller, c: int, d: Delivery)
    requires ClientOutbox.Inv(k) && c in k.memory && c in k.store.messages && k.store.messages[c].outgoing
    requires CanTransition(k.memory[c].delivery, d)
    ensures var u := UpdateMessageState(k, c, d, false);
            && c in u.memory && u.memory[c].delivery == d
            && c in u.store.messages && u.store.messages[c].delivery == d
            && (c in u.store.outbox <==> !Settled(d))
  {
    hide CanTransition;
    UpdateKeeps(k, c, d, false);
    assert OutboxExact(UpdateMessageState(k, c, d, false).store);
    hide ClientOutbox.Inv, OutboxExact;
    StillOwed(k, c, d);
  }

  lemma StillOwed(k: Controller, c: int, d: Delivery)
    requires ClientOutbox.Inv(k) && c in k.memory && c in k.store.messages && k.store.messages[c].outgoing
    requires CanTransition(k.memory[c].delivery, d)
    ensures c in UpdateMessageState(k, c, d, false).store.outbox <==> !Settled(d)
  {
    UpdateKeeps(k, c, d, false);
    hide CanTransition, Settled, Unique, Mirrored, SentStored, RequestsKnown, FreshIds;
  }

  /**
   A refused message that was waiting for its answer: it stays in the outbox, to be tried again,
   exactly when the refusal is retryable; otherwise it has failed for good.
   */
  lemma RejectionOutcome(es: seq<Event>, n: nat, request: nat, retryable: bool)
    requires n <= |es| && request in ControllerAt(es, n).requests
    ensures var k := ControllerAt(es, n);
            var u, c := Step(k, RejectReply(request, retryable, false)), k.requests[request];
            && c in k.memory && request !in u.requests
            && (k.memory[c].delivery in {WaitingAccept, Unknown} ==>
                  && c in u.memory && c in u.store.messages
                  && u.memory[c].delivery == (if retryable then RetryableFailed else PermanentFailed)
                  && u.store.messages[c].delivery == u.memory[c].delivery
                  && (c in u.store.outbox <==> retryable))
  {
    hide ControllerAt;
    RunKeepsInv(es, n);
    var k := ControllerAt(es, n);
    KnownRequest(k, request);
    AnswerOutcome(k, request, ClientOutbox.Failed(retryable));
    hide ClientOutbox.Inv, UpdateMessageState;
  }

  lemma AnswerOutcome(k: Controller, request: nat, d: Delivery)
    requires ClientOutbox.Inv(k) && request in k.requests && k.requests[request] in k.memory
    requires k.requests[request] in k.store.messages && k.store.messages[k.requests[request]].outgoing
    ensures var u, c := UpdateMessageState(k.(requests := k.requests - {request}), k.requests[request], d, false), k.requests[request];
            && u.requests == k.requests - {request}
            && (CanTransition(k.memory[c].delivery, d) ==>
                  && c in u.memory && u.memory[c].delivery == d
                  && c in u.store.messages && u.store.messages[c].delivery == d
                  && (c in u.store.outbox <==> !Settled(d)))
  {
    hide CanTransition, ClientStore.Inv, Mirrored, FreshIds, SentStored;
    var k', c := k.(requests := k.requests - {request}), k.requests[request];
    UpdateKeeps(k', c, d, false);
    if CanTransition(k.memory[c].delivery, d) {
      UpdateOutcome(k', c, d);
    }
  }

  /** A message whose request got no answer at all is kept as unknown, and owed. */
  lemma FailureOutcome(es: seq<Event>, n: nat, request: nat, outcomeUnknown: bool, retryable: bool)
    requires n <= |es| && request in ControllerAt(es, n).requests
    ensures var k := ControllerAt(es, n);
            var u, c := Step(k, Failure(request, outcomeUnknown, retryable, false)), k.requests[request];
            && c in k.memory && request !in u.requests
            && (k.memory[c].delivery == WaitingAccept ==>
                  && c in u.memory && c in u.store.messages && u.store.messages[c].delivery == u.memory[c].delivery
                  && (outcomeUnknown ==> u.memory[c].delivery == Unknown)
                  && (!outcomeUnknown ==> u.memory[c].delivery == if retryable then RetryableFailed else PermanentFailed)
                  && (c in u.store.outbox <==> outcomeUnknown || retryable))
  {
    hide ControllerAt;
    RunKeepsInv(es, n);
    var k := ControllerAt(es, n);
    KnownRequest(k, request);
    AnswerOutcome(k, request, if outcomeUnknown then Unknown else ClientOutbox.Failed(retryable));
    hide ClientOutbox.Inv, UpdateMessageState;
  }

  /** A manual retry sends the message's own text exactly when it failed retryably, has a recipient and the client is ready. */
  lemma RetrySendsIff(k: Controller, c: int, network: bool, ready: bool, fault: bool)
    requires c in k.memory
    ensures var shown, u := k.memory[c], Step(k, Retry(c, network, ready, fault));
            var sends := shown.delivery == RetryableFailed && network && ready && HasRecipient(shown.conversation);
            && u.sent == k.sent + (if sends then [Sent(c, shown.conversation, shown.body)] else [])
            && c in u.memory
            && u.memory[c].delivery == if sends then WaitingAccept
                                       else if shown.delivery == RetryableFailed && !network then PendingLocal
                                       else shown.delivery
  {
    hide Settled;
  }

  /** An accepted message is shown delivered and then read, and never goes back. */
  lemma LifecycleMovesForward(k: Controller, c: int, fault: bool)
    requires c in k.memory && k.memory[c].delivery in {Accepted, Delivered, Read}
    ensures forall d :: d in {Delivered, Read} ==>
              var u := Step(k, Lifecycle(c, d, fault));
              && c in u.memory && u.sent == k.sent
              && u.memory[c].delivery == if k.memory[c].delivery == Read then Read else d
  {
  }
}
