/** The controller object over its database, its handlers proved against the steps of the outbox runs. */
module AppController {
  import opened Options
  import ClientStore
  import opened ClientOutbox
  import opened SqliteClientRepository

  type Conversation = ClientStore.Conversation
  type Delivery = ClientStore.Delivery

  ghost predicate NoRepeats(ids: seq<int>) {
    forall i, j :: 0 <= i < j < |ids| ==> ids[i] != ids[j]
  }

  /** What resuming has to send: the unsettled messages with a recipient. */
  predicate Owed(memory: map<int, Shown>, c: int) {
    c in memory && HasRecipient(memory[c].conversation) && !ClientStore.Settled(memory[c].delivery)
  }

  function TextOf(memory: map<int, Shown>, c: int): Sent {
    if c in memory then Sent(c, memory[c].conversation, memory[c].body) else Sent(c, ClientStore.LocalOnly(""), "")
  }

  function TextsOf(memory: map<int, Shown>, ids: seq<int>): seq<Sent>
    decreases |ids|
  {
    if ids == [] then [] else TextsOf(memory, ids[..|ids| - 1]) + [TextOf(memory, ids[|ids| - 1])]
  }

  /** Any element: a hash table yields its keys in no particular order. */
  method Pick<T(==)>(s: set<T>) returns (e: T)
    requires s != {}
    ensures e in s
  {
    e :| e in s;
  }

  class AppController {
    const repository: SqliteClientRepository
    var memory: map<int, Shown>
    var nextClientMessageId: int
    var outgoingRequests: map<nat, int>
    var sent: seq<Sent>

    function State(): Controller
      reads this, repository
    {
      Controller(repository.State(), memory, nextClientMessageId, outgoingRequests, sent)
    }

    ghost predicate Valid()
      reads this, repository
    {
      Inv(State())
    }

    /** Start over whatever the database holds. */
    constructor (database: SqliteClientRepository)
      ensures repository == database && sent == []
      ensures memory == Loaded(database.messages) && outgoingRequests == map[]
      ensures IsNextFree(database.messages, nextClientMessageId)
    {
      repository := database;
      sent := [];
      memory, outgoingRequests := Loaded(database.messages), map[];
      nextClientMessageId := FIRST_ID;
      new;
      nextClientMessageId := NextFreeId();
    }

    /** The first client id below every stored one. */
    method NextFreeId() returns (next: int)
      ensures IsNextFree(repository.messages, next)
    {
      next := FIRST_ID;
      var rows := repository.messages;
      var todo := rows.Keys;
      while todo != {}
        invariant todo <= rows.Keys && next <= FIRST_ID
        invariant forall c :: c in rows && c !in todo ==> next < c
        invariant next == FIRST_ID || next + 1 in rows
        decreases |todo|
      {
        var c := Pick(todo);
        if c - 1 < next {
          next := c - 1;
        }
        todo := todo - {c};
      }
    }

    method LoadScenario()
      requires Valid()
      modifies this
      ensures Valid() && State() == Step(old(State()), Restart(nextClientMessageId))
      ensures IsNextFree(repository.messages, nextClientMessageId)
    {
      hide Inv, ClientOutbox.UpdateMessageState, Composed, ClientStore.AcceptOutgoing, ClientStore.ApplyIncomingBatch;
      var next := NextFreeId();
      StepKeeps(State(), Restart(next));
      memory := Loaded(repository.messages);
      outgoingRequests := map[];
      nextClientMessageId := next;
    }

    method UpdateMessageState(clientId: int, d: Delivery, fault: bool)
      modifies this, repository
      ensures State() == ClientOutbox.UpdateMessageState(old(State()), clientId, d, fault)
    {
      hide ClientStore.CanTransition, ClientStore.Settled;
      if clientId !in memory || !ClientStore.CanTransition(memory[clientId].delivery, d) {
        return;
      }
      memory := memory[clientId := memory[clientId].(delivery := d)];
      var _ := repository.UpdateDeliveryState(clientId, d, fault, false);
    }

    method SendText(clientId: int)
      requires clientId in memory
      modifies this
      ensures State() == SentText(old(State()), clientId)
    {
      outgoingRequests := outgoingRequests[|sent| := clientId];
      sent := sent + [Sent(clientId, memory[clientId].conversation, memory[clientId].body)];
    }

    method SendMessage(conversation: Conversation, body: string, network: bool, ready: bool, enqueueFault: bool, fault: bool)
      requires Valid()
      modifies this, repository
      ensures Valid() && State() == Step(old(State()), Compose(conversation, body, network, ready, enqueueFault, fault))
    {
      StepKeeps(State(), Compose(conversation, body, network, ready, enqueueFault, fault));
      hide Inv, ClientStore.EnqueueOutgoing;
      if body == "" {
        return;
      }
      ghost var before := State();
      var clientId := nextClientMessageId;
      nextClientMessageId := nextClientMessageId - 1;
      var row := ClientStore.Row(conversation, None, None, body, true, ClientStore.PendingLocal);
      var queued := repository.EnqueueOutgoing(ClientStore.Record(clientId, row), enqueueFault, false, false);
      var delivery := if queued then ClientStore.PendingLocal else ClientStore.PermanentFailed;
      memory := memory[clientId := Shown(conversation, body, delivery)];
      assert State() == Composed(before, conversation, body, enqueueFault);
      hide ClientOutbox.UpdateMessageState, Composed;
      if queued && network {
        if !HasRecipient(conversation) {
          UpdateMessageState(clientId, ClientStore.PermanentFailed, fault);
        } else if !ready {
          UpdateMessageState(clientId, ClientStore.Unknown, fault);
        } else {
          assert clientId in ClientOutbox.UpdateMessageState(State(), clientId, ClientStore.WaitingAccept, fault).memory by {
            UpdateKeepsShown(State(), clientId, ClientStore.WaitingAccept, fault, clientId);
          }
          UpdateMessageState(clientId, ClientStore.WaitingAccept, fault);
          SendText(clientId);
        }
      }
    }

    method RetryMessage(clientId: int, network: bool, ready: bool, fault: bool)
      requires Valid()
      modifies this, repository
      ensures Valid() && State() == Step(old(State()), Retry(clientId, network, ready, fault))
    {
      StepKeeps(State(), Retry(clientId, network, ready, fault));
      hide Inv, ClientOutbox.UpdateMessageState;
      if clientId !in memory || memory[clientId].delivery != ClientStore.RetryableFailed {
        return;
      }
      if !network {
        UpdateMessageState(clientId, ClientStore.PendingLocal, fault);
        return;
      }
      if !ready || !HasRecipient(memory[clientId].conversation) {
        return;
      }
      UpdateKeepsShown(State(), clientId, ClientStore.WaitingAccept, fault, clientId);
      UpdateMessageState(clientId, ClientStore.WaitingAccept, fault);
      SendText(clientId);
    }

    /** A success answer to a send. */
    method OnAccepted(request: nat, messageId: int, seqNo: int, fault: bool)
      requires Valid()
      modifies this, repository
      ensures Valid() && State() == Step(old(State()), AcceptReply(request, messageId, seqNo, fault))
    {
      StepKeeps(State(), AcceptReply(request, messageId, seqNo, fault));
      hide Inv, ClientStore.AcceptOutgoing;
      if request !in outgoingRequests {
        return;
      }
      var clientId := outgoingRequests[request];
      outgoingRequests := outgoingRequests - {request};
      if clientId !in memory {
        return;
      }
      var conversation := memory[clientId].conversation;
      memory := memory[clientId := memory[clientId].(delivery := ClientStore.Accepted)];
      var _ := repository.AcceptOutgoing(clientId, messageId, conversation, seqNo, fault, false, false);
    }

    /** An error answer to a send. */
    method OnRejected(request: nat, retryable: bool, fault: bool)
      requires Valid()
      modifies this, repository
      ensures Valid() && State() == Step(old(State()), RejectReply(request, retryable, fault))
    {
      StepKeeps(State(), RejectReply(request, retryable, fault));
      hide Inv, ClientOutbox.UpdateMessageState;
      if request in outgoingRequests {
        var clientId := outgoingRequests[request];
        outgoingRequests := outgoingRequests - {request};
        UpdateMessageState(clientId, Failed(retryable), fault);
      }
    }

    method HandleGatewayFailure(request: nat, outcomeUnknown: bool, retryable: bool, fault: bool)
      requires Valid()
      modifies this, repository
      ensures Valid() && State() == Step(old(State()), Failure(request, outcomeUnknown, retryable, fault))
    {
      StepKeeps(State(), Failure(request, outcomeUnknown, retryable, fault));
      hide Inv, ClientOutbox.UpdateMessageState;
      if request in outgoingRequests {
        var clientId := outgoingRequests[request];
        outgoingRequests := outgoingRequests - {request};
        UpdateMessageState(clientId, if outcomeUnknown then ClientStore.Unknown else Failed(retryable), fault);
      }
    }

    method Resume(clientId: int, fault: bool)
      requires Valid() && Owed(memory, clientId)
      modifies this, repository
      ensures Valid() && State() == Step(old(State()), ResumeOne(clientId, fault))
      ensures sent == old(sent) + [TextOf(old(memory), clientId)] && SameTexts(old(memory), memory)
      ensures forall c :: c in memory && c != clientId ==> c in old(memory) && memory[c] == old(memory)[c]
    {
      hide Inv, ClientOutbox.UpdateMessageState, ClientStore.Settled, SameTexts;
      StepKeeps(State(), ResumeOne(clientId, fault));
      UpdateKeepsShown(State(), clientId, ClientStore.WaitingAccept, fault, clientId);
      ResumeOneShown(State(), clientId, fault);
      UpdateMessageState(clientId, ClientStore.WaitingAccept, fault);
      SendText(clientId);
    }

    /** After a login every message still owed is sent again, each once. */
    method ResumePendingOutgoing(fault: int -> bool) returns (ids: seq<int>)
      requires Valid()
      modifies this, repository
      ensures Valid() && NoRepeats(ids) && forall c :: c in ids <==> Owed(old(memory), c)
      ensures sent == old(sent) + TextsOf(old(memory), ids)
    {
      hide Inv, Step, Owed, TextsOf, SameTexts, NoRepeats;
      ghost var shown := memory;
      ids := [];
      var todo := memory.Keys;
      ResumeStart(shown);
      while todo != {}
        invariant Valid() && sent == old(sent) + TextsOf(shown, ids)
        invariant Resuming(shown, memory, ids, todo)
        decreases |todo|
      {
        var c := Pick(todo);
        ghost var before := memory;
        OwedNow(shown, memory, ids, todo, c);
        var owed := Owed(memory, c);
        if owed {
          Resume(c, fault(c));
          TextsOfAppend(shown, ids, c);
        } else {
          SameTextsReflexive(memory);
        }
        ResumeNext(shown, before, memory, ids, todo, c);
        ids := if owed then ids + [c] else ids;
        todo := todo - {c};
      }
      ResumeEnd(shown, memory, ids);
    }
  }

  /** Part way: what was owed and is done has been sent, and what is still to do looks as it did. */
  ghost predicate Resuming(shown: map<int, Shown>, memory: map<int, Shown>, ids: seq<int>, todo: set<int>) {
    && todo <= shown.Keys && SameTexts(shown, memory) && NoRepeats(ids)
    && (forall c :: c in ids <==> Owed(shown, c) && c !in todo)
    && (forall c :: c in todo ==> c in memory && c in shown && memory[c] == shown[c])
  }

  lemma ResumeStart(shown: map<int, Shown>)
    ensures Resuming(shown, shown, [], shown.Keys) && TextsOf(shown, []) == []
  {
  }

  lemma OwedNow(shown: map<int, Shown>, memory: map<int, Shown>, ids: seq<int>, todo: set<int>, c: int)
    requires Resuming(shown, memory, ids, todo) && c in todo
    ensures Owed(memory, c) <==> Owed(shown, c)
    ensures TextOf(memory, c) == TextOf(shown, c) && c in memory
  {
  }

  lemma ResumeNext(shown: map<int, Shown>, before: map<int, Shown>, memory: map<int, Shown>, ids: seq<int>, todo: set<int>, c: int)
    requires Resuming(shown, before, ids, todo) && c in todo && SameTexts(before, memory)
    requires forall k :: k in memory && k != c ==> k in before && memory[k] == before[k]
    ensures Resuming(shown, memory, if Owed(before, c) then ids + [c] else ids, todo - {c})
  {
    hide HasRecipient, ClientStore.Settled;
    OwedNow(shown, before, ids, todo, c);
    assert c !in ids;
  }

  lemma ResumeEnd(shown: map<int, Shown>, memory: map<int, Shown>, ids: seq<int>)
    requires Resuming(shown, memory, ids, {})
    ensures NoRepeats(ids) && forall c :: c in ids <==> Owed(shown, c)
  {
    hide Owed;
  }

  lemma SameTextsReflexive(memory: map<int, Shown>)
    ensures SameTexts(memory, memory)
  {
  }

  lemma TextsOfAppend(memory: map<int, Shown>, ids: seq<int>, c: int)
    ensures TextsOf(memory, ids + [c]) == TextsOf(memory, ids) + [TextOf(memory, c)]
  {
    assert (ids + [c])[..|ids|] == ids;
  }

  ghost predicate SameTexts(a: map<int, Shown>, b: map<int, Shown>) {
    a.Keys == b.Keys && forall c :: c in a ==> a[c].conversation == b[c].conversation && a[c].body == b[c].body
  }

  lemma UpdateKeepsShown(k: Controller, clientId: int, d: Delivery, fault: bool, c: int)
    ensures var u := ClientOutbox.UpdateMessageState(k, clientId, d, fault);
            && SameTexts(k.memory, u.memory) && u.sent == k.sent
            && (c in k.memory ==> c in u.memory)
            && (c in k.memory && c != clientId ==> u.memory[c] == k.memory[c])
  {
    hide ClientStore.CanTransition;
  }

  /** Resuming one message writes its text and leaves the others as they are shown. */
  lemma ResumeOneShown(k: Controller, clientId: int, fault: bool)
    requires Owed(k.memory, clientId)
    ensures var u := Step(k, ResumeOne(clientId, fault));
            && u.sent == k.sent + [TextOf(k.memory, clientId)]
            && SameTexts(k.memory, u.memory)
            && forall c :: c in u.memory && c != clientId ==> c in k.memory && u.memory[c] == k.memory[c]
  {
    hide ClientOutbox.UpdateMessageState, ClientStore.Settled;
    forall c
      ensures c in k.memory && c != clientId ==>
                var u := ClientOutbox.UpdateMessageState(k, clientId, ClientStore.WaitingAccept, fault);
                c in u.memory && u.memory[c] == k.memory[c]
    {
      UpdateKeepsShown(k, clientId, ClientStore.WaitingAccept, fault, c);
    }
    UpdateKeepsShown(k, clientId, ClientStore.WaitingAccept, fault, clientId);
  }
}
