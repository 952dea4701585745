/** Who is told about a new message, and why each of them can read it. */
module Deliveries {
  import opened MessageTables
  import opened Accept
  import opened Sync

  /** After a routed transaction everyone in the audience is a member of the conversation. */
  lemma AudienceEnrolled(t: Tables, c: Command, u: int)
    requires Inv(t) && RouteOf(t.social, c).Routed? && u in RouteOf(t.social, c).audience
    ensures (RouteOf(t.social, c).conversationId, u) in Prepared(t, RouteOf(t.social, c)).members
  {
    hide LogInv, MembersBounded, Upserted, MembersOf;
  }

  lemma RecipientsInAudience(s: Social, c: Command, u: int)
    requires RouteOf(s, c).Routed? && u in RecipientsOf(s, c)
    ensures u in RouteOf(s, c).audience
  {
  }

  /** A new row is appended to the prepared tables: the members are those of the preparation. */
  lemma DeliveredMeansAppended(t: Tables, c: Command, time: string, gap: nat, fault: Fault)
    requires Inv(t) && ShouldDeliver(Execute(t, c, time, gap, fault).1)
    ensures var r := RouteOf(t.social, c);
            var (u, reply) := Execute(t, c, time, gap, fault);
            && r.Routed? && reply.conversationId == r.conversationId && reply.recipients == RecipientsOf(t.social, c)
            && u.members == Prepared(t, r).members
            && reply.conversationSeq == Prepared(t, r).conversations[r.conversationId].latestSeq + 1
  {
    hide LogInv, MembersBounded, BusinessKeys, MembersOf, Upserted, Enrolled;
  }

  /** A recipient is a member that joined before the message took its number. */
  lemma RecipientJoinedBefore(t: Tables, c: Command, time: string, gap: nat, fault: Fault, u: int)
    requires Inv(t) && ShouldDeliver(Execute(t, c, time, gap, fault).1) && u in Execute(t, c, time, gap, fault).1.recipients
    ensures var (after, reply) := Execute(t, c, time, gap, fault);
            && (reply.conversationId, u) in after.members
            && 1 <= after.members[(reply.conversationId, u)].joinedSeq <= reply.conversationSeq
  {
    DeliveredMeansAppended(t, c, time, gap, fault);
    RecipientsInAudience(t.social, c, u);
    AudienceEnrolled(t, c, u);
    PreparedKeepsInv(t, c);
    MemberOf(Prepared(t, RouteOf(t.social, c)), (RouteOf(t.social, c).conversationId, u));
    hide Execute, LogInv, MembersBounded, Grows, Prepared, MembersOf;
  }

  lemma AcceptedRow(t: Tables, c: Command, time: string, gap: nat, fault: Fault)
    requires Inv(t) && ShouldDeliver(Execute(t, c, time, gap, fault).1)
    ensures var (u, reply) := Execute(t, c, time, gap, fault);
            && reply.messageId in u.log.messages
            && u.log.messages[reply.messageId] == NewMessage(c, reply.conversationId, reply.conversationSeq, time)
            && reply.conversationId in u.conversations
            && u.conversations[reply.conversationId].latestSeq == reply.conversationSeq
  {
    hide LogInv, MembersBounded, BusinessKeys, Prepared, MembersOf;
  }

  /**
   Every recipient of a newly accepted message is a member whose window holds it: now and in
   every later state, a pull that starts anywhere before the message cannot end without it.
   */
  lemma FanOutVisible(t: Tables, c: Command, time: string, gap: nat, fault: Fault, later: Tables, uid: int)
    requires Inv(t) && ShouldDeliver(Execute(t, c, time, gap, fault).1) && uid in Execute(t, c, time, gap, fault).1.recipients
    requires Inv(later) && Grows(Execute(t, c, time, gap, fault).0, later)
    ensures var reply := Execute(t, c, time, gap, fault).1;
            var k := (reply.conversationId, uid);
            && reply.conversationId in later.conversations && k in later.members
            && later.members[k].joinedSeq <= reply.conversationSeq
                 <= WindowEnd(later.members[k], later.conversations[k.0].latestSeq)
    ensures var reply := Execute(t, c, time, gap, fault).1;
            var page := SyncConversation(later, uid, reply.conversationId, reply.conversationSeq - 1, 1);
            uid > 0 && reply.conversationId > 0 ==>
              page.Page? && |page.messages| == 1
              && Fixed(page.messages[0]) == NewMessage(c, reply.conversationId, reply.conversationSeq, time)
  {
    hide Execute, Grows, Inv, SyncConversation;
    var (u, reply) := Execute(t, c, time, gap, fault);
    var cid, seqNo, k := reply.conversationId, reply.conversationSeq, (reply.conversationId, uid);
    RecipientJoinedBefore(t, c, time, gap, fault, uid);
    AcceptedRow(t, c, time, gap, fault);
    ExecuteKeepsInv(t, c, time, gap, fault);
    MemberOf(u, k);
    MemberOf(later, k);
    GrowsAt(u, later, reply.messageId, cid, k);
    if uid > 0 && cid > 0 {
      FreshRowReadable(u, later, reply.messageId, cid, uid, seqNo);
    }
  }

  lemma MemberOf(t: Tables, k: (int, int))
    requires Inv(t)
    ensures k in t.members ==> k.0 in t.conversations && MemberBounded(t.members[k], t.conversations[k.0].latestSeq)
  {
  }

  lemma FreshRowReadable(u: Tables, later: Tables, id: int, cid: int, uid: int, seqNo: nat)
    requires Inv(u) && Inv(later) && Grows(u, later) && uid > 0 && cid > 0
    requires id in u.log.messages && SeqKey(u.log.messages[id]) == (cid, seqNo)
    requires cid in later.conversations && (cid, uid) in later.members
    requires 1 <= later.members[(cid, uid)].joinedSeq <= seqNo <= later.conversations[cid].latestSeq
    ensures var page := SyncConversation(later, uid, cid, seqNo - 1, 1);
            page.Page? && |page.messages| == 1 && Fixed(page.messages[0]) == Fixed(u.log.messages[id])
  {
    hide Inv, Grows, SyncConversation;
    PageExact(later, uid, cid, seqNo - 1, 1);
    var page := SyncConversation(later, uid, cid, seqNo - 1, 1);
    assert page.nextSeq == seqNo - 1 + |page.messages|;
    assert RowAt(later.log, cid, seqNo, page.messages[0]);
    RowKept(u, later, id);
  }

  /** The row at a position of the log is the same row in every later state. */
  lemma RowKept(u: Tables, later: Tables, id: int)
    requires Inv(u) && Inv(later) && Grows(u, later) && id in u.log.messages
    ensures var k := SeqKey(u.log.messages[id]);
            && k in later.log.bySeq && later.log.bySeq[k] == id && id in later.log.messages
            && Fixed(later.log.messages[id]) == Fixed(u.log.messages[id])
  {
    GrowsAt(u, later, id, 0, (0, 0));
  }
}
