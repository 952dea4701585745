/**
 The data-access object itself: one field for each table, one method for each transaction,
 updating the tables statement by statement and putting them back on a rollback.  Each method
 is proved against the effect that the other modules reason about.
 */
module MysqlDao {
  import opened MessageTables
  import opened Accept
  import Answers
  import Receipts
  import Sync
  import SyncWindows

  class MysqlDao {
    var social: Social
    var conversations: Conversations
    var byBusiness: BusinessIndex
    var members: Members
    var messages: Messages
    var byClient: ClientIndex
    var bySeq: SeqIndex
    var nextId: int

    function State(): Tables
      reads this
    {
      Tables(social, conversations, byBusiness, members, Log(messages, byClient, bySeq, nextId))
    }

    ghost predicate Valid()
      reads this
    {
      Inv(State())
    }

    constructor ()
      ensures Valid() && State() == EmptyTables()
    {
      social := Social(map[], map[], map[]);
      conversations, byBusiness, members := map[], map[], map[];
      messages, byClient, bySeq, nextId := map[], map[], map[], 1;
    }

    /** Put back the tables a transaction started from. */
    method Rollback(t: Tables)
      modifies this
      ensures State() == t
    {
      social, conversations, byBusiness, members := t.social, t.conversations, t.byBusiness, t.members;
      messages, byClient, bySeq, nextId := t.log.messages, t.log.byClient, t.log.bySeq, t.log.nextId;
    }

    /** INSERT INTO conversations ... ON DUPLICATE KEY UPDATE conversationId. */
    method UpsertConversation(cid: int, kind: Kind, businessId: int)
      requires (kind, businessId) in byBusiness ==> byBusiness[(kind, businessId)] in conversations
      modifies this`conversations, this`byBusiness
      ensures (conversations, byBusiness) == Upserted(old(conversations), old(byBusiness), cid, kind, businessId)
    {
      if cid !in conversations {
        if (kind, businessId) in byBusiness {
          var from := byBusiness[(kind, businessId)];
          conversations := (conversations - {from})[cid := conversations[from]];
        } else {
          conversations := conversations[cid := Conversation(kind, businessId, 0)];
        }
        byBusiness := byBusiness[(kind, businessId) := cid];
      }
    }

    /** Take the next sequence number of the conversation and insert the message under a fresh id. */
    method AppendMessage(c: Command, cid: int, sendDateTime: string, gap: nat) returns (id: int, seqNo: nat)
      requires cid in conversations
      modifies this`conversations, this`messages, this`byClient, this`bySeq, this`nextId
      ensures State() == Appended(old(State()), c, cid, sendDateTime, gap)
      ensures id == old(nextId) + gap && seqNo == old(conversations[cid].latestSeq) + 1
    {
      seqNo := conversations[cid].latestSeq + 1;
      conversations := conversations[cid := conversations[cid].(latestSeq := seqNo)];
      id := nextId + gap;
      messages := messages[id := NewMessage(c, cid, seqNo, sendDateTime)];
      byClient := byClient[(c.sender, c.clientMessageId) := id];
      bySeq := bySeq[(cid, seqNo) := id];
      nextId := id + 1;
    }

    /** Commit, unless the database rolls back or its answer is lost. */
    method Commit(before: Tables, answer: Reply, gap: nat, fault: Fault) returns (reply: Reply)
      modifies this
      ensures (State(), reply) == Finish(before, old(State()), answer, gap, fault)
    {
      match fault {
        case NoFault => reply := answer;
        case RolledBack =>
          Rollback(before);
          nextId := nextId + gap;
          reply := Failed(MysqlFailed);
        case ReplyLost => reply := Failed(MysqlFailed);
      }
    }

    /** The part both accept transactions share, once the conversation is prepared. */
    method AcceptPrepared(before: Tables, c: Command, cid: int, recipients: set<int>, sendDateTime: string, gap: nat, fault: Fault)
      returns (reply: Reply)
      requires cid in conversations && ClientIndexed(messages, byClient)
      modifies this
      ensures (State(), reply) == Settled(before, old(State()), c, cid, recipients, sendDateTime, gap, fault)
    {
      if (c.sender, c.clientMessageId) in byClient {
        var id := byClient[(c.sender, c.clientMessageId)];
        var row := messages[id];
        if row.conversationId == cid && row.receiverId == Target(c) && row.msgType == TEXT && row.content == c.content {
          reply := Commit(before, Accepted(id, cid, row.conversationSeq, true, recipients), gap, fault);
        } else {
          Rollback(before);
          reply := Failed(IdempotencyConflict);
        }
      } else {
        var id, seqNo := AppendMessage(c, cid, sendDateTime, gap);
        reply := Commit(before, Accepted(id, cid, seqNo, false, recipients), gap, fault);
      }
    }

    method AcceptDirectText(
      senderId: int, receiverId: int, clientMessageId: string, content: string, sendDateTime: string, gap: nat, fault: Fault)
      returns (reply: Reply)
      requires Valid()
      modifies this
      ensures (State(), reply)
              == Execute(old(State()), DirectText(senderId, receiverId, clientMessageId, content), sendDateTime, gap, fault)
      ensures Valid() && Grows(old(State()), State())
    {
      hide ClientIndexed, SeqIndexed, Dense, IdsOrdered, StatusesSound, MembersBounded, Grows, Upserted, Settled, MembersOf;
      var before := State();
      var c := DirectText(senderId, receiverId, clientMessageId, content);
      ExecuteKeepsInv(before, c, sendDateTime, gap, fault);
      if (senderId, receiverId) !in social.friends {
        reply := Failed(UserNotFriend);
        return;
      }
      var cid := social.friends[(senderId, receiverId)];
      UpsertConversation(cid, Direct, cid);
      members := Enrolled(members, cid, {senderId, receiverId}, 1);
      assert State() == Prepared(before, RouteOf(before.social, c));
      reply := AcceptPrepared(before, c, cid, {receiverId}, sendDateTime, gap, fault);
    }

    method AcceptGroupText(
      senderId: int, groupId: int, clientMessageId: string, content: string, sendDateTime: string, gap: nat, fault: Fault)
      returns (reply: Reply)
      requires Valid()
      modifies this
      ensures (State(), reply)
              == Execute(old(State()), GroupText(senderId, groupId, clientMessageId, content), sendDateTime, gap, fault)
      ensures Valid() && Grows(old(State()), State())
      ensures reply.Accepted? ==>
                forall u :: u in reply.recipients <==> (groupId, u) in old(social.groupMembers) && u != senderId
    {
      hide ClientIndexed, SeqIndexed, Dense, IdsOrdered, StatusesSound, MembersBounded, Grows, Upserted, Settled, MembersOf;
      var before := State();
      var c := GroupText(senderId, groupId, clientMessageId, content);
      ExecuteKeepsInv(before, c, sendDateTime, gap, fault);
      forall u {
        Answers.GroupAnswer(before, c, sendDateTime, gap, fault, u);
      }
      if groupId !in social.groups || (groupId, senderId) !in social.groupMembers {
        reply := Failed(MessageOwnershipInvalid);
        return;
      }
      if social.groupMembers[(groupId, senderId)] != 0 {
        reply := Failed(GroupNotifyFailed);
        return;
      }
      var cid := social.groups[groupId];
      UpsertConversation(cid, Group, groupId);
      members := Enrolled(members, cid, MembersOf(social, groupId), conversations[cid].latestSeq + 1);
      assert State() == Prepared(before, RouteOf(before.social, c));
      reply := AcceptPrepared(before, c, cid, MembersOf(social, groupId) - {senderId}, sendDateTime, gap, fault);
    }

    /** Fetch one row more than the page holds, fill the page, and report whether a row was left over. */
    method SyncConversation(uid: int, cid: int, afterSeq: int, pullCount: int) returns (reply: Sync.SyncReply)
      ensures reply == Sync.SyncConversation(State(), uid, cid, afterSeq, pullCount)
      ensures Valid() && reply.Page? ==>
                && (cid, uid) in members
                && forall i :: 0 <= i < |reply.messages| ==>
                     SyncWindows.Visible(reply.messages[i], cid, members[(cid, uid)].joinedSeq, afterSeq)
    {
      hide Inv, SyncWindows.Visible;
      if Valid() {
        SyncWindows.PageVisible(State(), uid, cid, afterSeq, pullCount);
      }
      if uid <= 0 || cid <= 0 || afterSeq < 0 {
        return Sync.SyncFailed(JsonParser);
      }
      if cid !in conversations || (cid, uid) !in members {
        return Sync.SyncFailed(MessageOwnershipInvalid);
      }
      var count := Sync.BoundedCount(pullCount);
      var conv, m := conversations[cid], members[(cid, uid)];
      var after := Receipts.Max(afterSeq, m.joinedSeq - 1);
      ghost var all := Sync.Rows(State().log, cid, after, Sync.WindowEnd(m, conv.latestSeq));
      var rows := Sync.Limit(Sync.Rows(State().log, cid, after, Sync.WindowEnd(m, conv.latestSeq)), count + 1);
      var page, nextSeq, hasMore, i := [], 0, false, 0;
      while i < |rows|
        invariant 0 <= i <= |rows| && i <= count && !hasMore
        invariant page == rows[..i]
        invariant i > 0 ==> nextSeq == rows[i - 1].conversationSeq
      {
        if |page| >= count {
          hasMore := true;
          break;
        }
        nextSeq := rows[i].conversationSeq;
        page := page + [rows[i]];
        i := i + 1;
      }
      if page == [] {
        nextSeq := after;
      }
      assert page == Sync.Limit(all, count);
      reply := Sync.Page(conv.kind, conv.latestSeq, page, nextSeq, hasMore);
    }

    method AcknowledgeConversationMessage(messageId: int, uid: int, cid: int, seqNo: int, status: int, readDateTime: string)
      returns (outcome: Receipts.Outcome)
      modifies this`messages, this`members
      ensures (State(), outcome) == Receipts.AckConversation(old(State()), messageId, uid, cid, seqNo, status, readDateTime)
      ensures outcome == Receipts.Updated ==>
                && (cid, uid) in old(members) && seqNo <= members[(cid, uid)].deliveredSeq
                && members[(cid, uid)].deliveredSeq in {seqNo, old(members)[(cid, uid)].deliveredSeq}
                && (status == READ ==> seqNo <= members[(cid, uid)].readSeq)
                && members[(cid, uid)].readSeq in {seqNo, old(members)[(cid, uid)].readSeq}
    {
      if messageId <= 0 || uid <= 0 || cid <= 0 || seqNo <= 0 {
        return Receipts.NotFound;
      }
      if messageId !in messages || messages[messageId].conversationId != cid || messages[messageId].conversationSeq != seqNo
         || cid !in conversations || (cid, uid) !in members {
        return Receipts.NotFound;
      }
      var m, direct := messages[messageId], conversations[cid].kind == Direct;
      if direct && m.receiverId != uid {
        return Receipts.NotOwner;
      }
      if direct {
        var readTime := if status == READ && (m.status < READ || m.readDateTime == "") then readDateTime else m.readDateTime;
        messages := messages[messageId := m.(readDateTime := readTime, status := Receipts.Max(m.status, status))];
      }
      var member := members[(cid, uid)].(deliveredSeq := Receipts.Max(members[(cid, uid)].deliveredSeq, seqNo));
      if status == READ {
        member := member.(readSeq := Receipts.Max(member.readSeq, seqNo));
      }
      members := members[(cid, uid) := member];
      return Receipts.Updated;
    }

    method UpdateMessageForReceiver(messageId: int, receiverId: int, status: int, readDateTime: string)
      returns (outcome: Receipts.Outcome)
      modifies this`messages
      ensures (State(), outcome) == Receipts.AckReceiver(old(State()), messageId, receiverId, status, readDateTime)
    {
      if messageId !in messages {
        return Receipts.NotFound;
      }
      var m := messages[messageId];
      if m.receiverId != receiverId {
        return Receipts.NotOwner;
      }
      if readDateTime == "" {
        messages := messages[messageId := m.(status := Receipts.Max(m.status, status))];
        return Receipts.Updated;
      }
      var readTime := if m.status < status || m.readDateTime == "" then readDateTime else m.readDateTime;
      messages := messages[messageId := m.(readDateTime := readTime, status := Receipts.Max(m.status, status))];
      return Receipts.Updated;
    }

    method AdvanceConversationCursor(uid: int, cid: int, seqNo: int, read: bool)
      modifies this`members
      ensures State() == Receipts.CursorAdvanced(old(State()), uid, cid, seqNo, read)
      ensures uid > 0 && cid > 0 && seqNo > 0 && (cid, uid) in members && cid in conversations
              && seqNo <= conversations[cid].latestSeq ==>
                seqNo <= members[(cid, uid)].deliveredSeq && (read ==> seqNo <= members[(cid, uid)].readSeq)
    {
      if uid <= 0 || cid <= 0 || seqNo <= 0 || (cid, uid) !in members || cid !in conversations
         || conversations[cid].latestSeq < seqNo {
        return;
      }
      var m := members[(cid, uid)];
      members := members[(cid, uid) := m.(deliveredSeq := Receipts.Max(m.deliveredSeq, seqNo),
                                          readSeq := if read then Receipts.Max(m.readSeq, seqNo) else m.readSeq)];
    }
  }
}
