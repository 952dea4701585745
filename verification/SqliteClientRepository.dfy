/** The database object: each method is a transaction that commits as a whole or is rolled back. */
module SqliteClientRepository {
  import opened Options
  import opened ClientStore

  class SqliteClientRepository {
    var messages: Rows
    var outbox: set<int>
    var cursors: map<Conversation, int>

    function State(): Store
      reads this
    {
      Store(messages, outbox, cursors)
    }

    constructor ()
      ensures State() == BLANK
    {
      messages, outbox, cursors := map[], {}, map[];
    }

    method Rollback(saved: Store)
      modifies this
      ensures State() == saved
    {
      messages, outbox, cursors := saved.messages, saved.outbox, saved.cursors;
    }

    /** `fails` stands for an error of the statement other than a broken uniqueness rule. */
    method InsertMessage(r: Record, ignoreDuplicate: bool, fails: bool) returns (ok: bool)
      modifies `messages
      ensures ok == (!fails && (ignoreDuplicate || Fits(old(messages), r)))
      ensures messages == if ok then Offered(old(messages), r) else old(messages)
    {
      if fails {
        return false;
      }
      if !Fits(messages, r) {
        return ignoreDuplicate;
      }
      messages := messages[r.clientId := r.row];
      return true;
    }

    method EnqueueOutgoing(r: Record, insertFails: bool, outboxFails: bool, commitFails: bool) returns (ok: bool)
      modifies this
      ensures (State(), ok) ==
              ClientStore.EnqueueOutgoing(old(State()), r, insertFails || outboxFails || commitFails)
    {
      var saved := State();
      ok := InsertMessage(r, false, insertFails);
      if !ok {
        Rollback(saved);
        return;
      }
      if outboxFails || r.clientId in outbox {
        Rollback(saved);
        return false;
      }
      outbox := outbox + {r.clientId};
      if commitFails {
        Rollback(saved);
        return false;
      }
    }

    method UpdateDeliveryState(clientId: int, d: Delivery, updateFails: bool, commitFails: bool) returns (ok: bool)
      modifies this
      ensures (State(), ok) == ClientStore.UpdateDeliveryState(old(State()), clientId, d, updateFails || commitFails)
    {
      var saved := State();
      if updateFails {
        return false;
      }
      if clientId in messages {
        messages := messages[clientId := messages[clientId].(delivery := d)];
      }
      if d == Accepted || d == Delivered || d == Read || d == PermanentFailed {
        outbox := outbox - {clientId};
      }
      if commitFails {
        Rollback(saved);
        return false;
      }
      return true;
    }

    method AcceptOutgoing(clientId: int, messageId: int, conversation: Conversation, seqNo: int,
                          updateFails: bool, cursorFails: bool, commitFails: bool) returns (ok: bool)
      modifies this
      ensures (State(), ok) ==
              ClientStore.AcceptOutgoing(old(State()), clientId, messageId, conversation, seqNo,
                                         updateFails || cursorFails || commitFails)
    {
      var saved := State();
      if updateFails || !MayAccept(saved, clientId, messageId, seqNo) {
        return false;
      }
      if clientId in messages {
        messages := messages[clientId := messages[clientId].(messageId := Some(messageId), seqNo := Some(seqNo),
                                                             delivery := Accepted)];
      }
      if cursorFails {
        Rollback(saved);
        return false;
      }
      if conversation !in cursors || cursors[conversation] <= seqNo {
        cursors := cursors[conversation := seqNo];
      } else {
        assert cursors == cursors[conversation := cursors[conversation]];
      }
      outbox := outbox - {clientId};
      if commitFails {
        Rollback(saved);
        return false;
      }
      return true;
    }

    /** The statement of record `failAt` fails, or the cursor or commit when that is past the end. */
    method ApplyIncomingBatch(conversation: Conversation, batch: seq<Record>, next: int, failAt: Option<nat>)
      returns (ok: bool)
      modifies this
      ensures (State(), ok) == ClientStore.ApplyIncomingBatch(old(State()), conversation, batch, next, failAt.Some?)
    {
      var saved := State();
      var i := 0;
      while i < |batch|
        invariant i <= |batch| && outbox == saved.outbox && cursors == saved.cursors
        invariant messages == OfferedAll(saved.messages, batch[..i]) && (failAt.Some? ==> failAt.value >= i)
      {
        assert batch[..i + 1][..i] == batch[..i];
        ok := InsertMessage(batch[i], true, failAt == Some(i));
        if !ok {
          Rollback(saved);
          return;
        }
        i := i + 1;
      }
      assert batch[..i] == batch;
      if conversation !in cursors || next >= cursors[conversation] {
        cursors := cursors[conversation := next];
      }
      if failAt.Some? {
        Rollback(saved);
        return false;
      }
      return true;
    }
  }
}
