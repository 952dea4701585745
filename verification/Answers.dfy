/**
 What a text asks for and what its sender is told, read off the tables: who is refused, which
 conversation and recipients an accepted text has, what its row holds, and from which message on
 a newly enrolled member reads.
 */
module Answers {
  import opened MessageTables
  import opened Accept
  import opened MessageCore
  import Resends

  // ---------------------------------------------------------------- from the packet to the command

  /** A packet is usable exactly when its fields are there, and the command carries them unchanged. */
  lemma PacketFields(r: TextRequest)
    ensures CommandOf(r).Some? <==> r.uid > 0 && r.target > 0 && r.data != "" && (r.hasClientId || r.seqNo > 0)
    ensures CommandOf(r).Some? ==>
              var c := CommandOf(r).value;
              && c.sender == r.uid && c.content == r.data
              && (r.group ==> c.GroupText? && c.groupId == r.target)
              && (!r.group ==> c.DirectText? && c.receiver == r.target)
              && (r.hasClientId && r.clientId != "" ==> c.clientMessageId == r.clientId)
              && (!r.hasClientId || r.clientId == "" ==> c.clientMessageId == Decimal(r.seqNo))
  {
    DecimalNotEmpty(r.seqNo);
    hide Decimal;
  }

  lemma DecimalNotEmpty(n: int)
    ensures Decimal(n) != ""
  {
  }

  // ---------------------------------------------------------------- refusals, conversation, recipients

  lemma MembersOfExact(s: Social, groupId: int, u: int)
    ensures u in MembersOf(s, groupId) <==> (groupId, u) in s.groupMembers
  {
    if (groupId, u) in s.groupMembers {
      assert (groupId, u).1 == u;
    }
  }

  /** A transaction that found its conversation is accepted, in conflict, or failed in the database. */
  lemma SettledAnswers(t: Tables, p: Tables, c: Command, cid: int, recipients: set<int>, time: string, gap: nat, fault: Fault)
    requires cid in p.conversations && ClientIndexed(p.log.messages, p.log.byClient)
    ensures var reply := Settled(t, p, c, cid, recipients, time, gap, fault).1;
            || reply == Failed(IdempotencyConflict) || reply == Failed(MysqlFailed)
            || (reply.Accepted? && reply.conversationId == cid && reply.recipients == recipients)
  {
    hide Appended;
  }

  lemma PreparedLog(t: Tables, r: Route)
    requires Inv(t) && r.Routed?
    ensures Prepared(t, r).log == t.log
  {
    hide LogInv, MembersBounded, Upserted, Enrolled;
  }

  /** A refused command is told why; a routed one is accepted in its conversation or fails otherwise. */
  lemma AnswerByRoute(t: Tables, c: Command, time: string, gap: nat, fault: Fault)
    requires Inv(t)
    ensures var r, reply := RouteOf(t.social, c), Execute(t, c, time, gap, fault).1;
            if r.Refused? then reply == Failed(r.error)
            else
              || reply == Failed(IdempotencyConflict) || reply == Failed(MysqlFailed)
              || (reply.Accepted? && reply.conversationId == r.conversationId && reply.recipients == RecipientsOf(t.social, c))
  {
    hide Settled, Prepared, RouteOf, SeqIndexed, Dense, IdsOrdered, StatusesSound, MembersBounded, BusinessKeys;
    var r := RouteOf(t.social, c);
    if r.Routed? {
      PreparedLog(t, r);
      SettledAnswers(t, Prepared(t, r), c, r.conversationId, RecipientsOf(t.social, c), time, gap, fault);
    }
  }

  /** A direct text needs a friendship; accepted, it lies in the friends' conversation and is for the friend. */
  lemma DirectAnswer(t: Tables, c: Command, time: string, gap: nat, fault: Fault)
    requires Inv(t) && c.DirectText?
    ensures var reply := Execute(t, c, time, gap, fault).1;
            && (reply == Failed(UserNotFriend) <==> (c.sender, c.receiver) !in t.social.friends)
            && (reply.Accepted? ==>
                  reply.conversationId == t.social.friends[(c.sender, c.receiver)] && reply.recipients == {c.receiver})
  {
    hide Execute, Inv;
    AnswerByRoute(t, c, time, gap, fault);
  }

  /**
   A group text needs a member of the group who may speak; accepted, it lies in the group's
   conversation and is for every other member of the group.
   */
  lemma GroupAnswer(t: Tables, c: Command, time: string, gap: nat, fault: Fault, u: int)
    requires Inv(t) && c.GroupText?
    ensures var reply := Execute(t, c, time, gap, fault).1;
            var member := c.groupId in t.social.groups && (c.groupId, c.sender) in t.social.groupMembers;
            && (reply == Failed(MessageOwnershipInvalid) <==> !member)
            && (reply == Failed(GroupNotifyFailed) <==> member && t.social.groupMembers[(c.groupId, c.sender)] != 0)
            && (reply.Accepted? ==>
                  && reply.conversationId == t.social.groups[c.groupId]
                  && (u in reply.recipients <==> (c.groupId, u) in t.social.groupMembers && u != c.sender))
  {
    MembersOfExact(t.social, c.groupId, u);
    hide Execute, Inv, MembersOf;
    AnswerByRoute(t, c, time, gap, fault);
  }

  // ---------------------------------------------------------------- what is written

  /** The new row holds the command's own fields, unread, under the number and id of the answer. */
  lemma RowHoldsTheCommand(t: Tables, c: Command, time: string, gap: nat, fault: Fault)
    requires Inv(t)
    ensures var (u, reply) := Execute(t, c, time, gap, fault);
            ShouldDeliver(reply) ==>
              && reply.messageId !in t.log.messages && reply.messageId in u.log.messages
              && var row := u.log.messages[reply.messageId];
                 && row.senderId == c.sender && row.content == c.content && row.clientMessageId == c.clientMessageId
                 && row.receiverId == (if c.DirectText? then c.receiver else c.groupId)
                 && row.conversationId == reply.conversationId && row.conversationSeq == reply.conversationSeq
                 && row.msgType == TEXT && row.status == WAIT && row.sendDateTime == time && row.readDateTime == ""
  {
    hide SeqIndexed, Dense, ClientIndexed, StatusesSound, MembersBounded, BusinessKeys, Prepared, MembersOf;
    if RouteOf(t.social, c).Routed? {
      PreparedLog(t, RouteOf(t.social, c));
    }
  }

  /** A conversation that was there keeps its number; a new one starts at 0. */
  lemma FoundConversation(t: Tables, c: Command)
    requires Inv(t) && RouteOf(t.social, c).Routed?
    ensures var r := RouteOf(t.social, c);
            var (convs, _) := Upserted(t.conversations, t.byBusiness, r.conversationId, r.kind, r.businessId);
            && r.conversationId in convs
            && convs[r.conversationId].latestSeq ==
               if r.conversationId in t.conversations then t.conversations[r.conversationId].latestSeq else 0
  {
    hide LogInv, MembersBounded, RouteOf;
    UpsertNeverMoves(t, c);
  }

  /** An accepted text enrols its audience and nobody else. */
  lemma AcceptedMembers(t: Tables, c: Command, time: string, gap: nat, fault: Fault)
    requires Inv(t) && Execute(t, c, time, gap, fault).1.Accepted?
    ensures var r := RouteOf(t.social, c);
            && r.Routed? && Execute(t, c, time, gap, fault).1.conversationId == r.conversationId
            && Execute(t, c, time, gap, fault).0.members == Prepared(t, r).members
  {
    hide LogInv, MembersBounded, BusinessKeys, Prepared, RouteOf, RecipientsOf;
  }

  lemma EnrolledAs(t: Tables, c: Command, uid: int)
    requires Inv(t) && RouteOf(t.social, c).Routed?
    ensures var r := RouteOf(t.social, c);
            var p, k := Prepared(t, r), (r.conversationId, uid);
            k in p.members && k !in t.members ==>
              && uid in r.audience && p.members[k].deliveredSeq == 0 && p.members[k].readSeq == 0
              && p.members[k].joinedSeq ==
                 if r.kind == Direct then 1
                 else 1 + if k.0 in t.conversations then t.conversations[k.0].latestSeq else 0
  {
    hide LogInv, MembersBounded, RouteOf, Upserted;
    FoundConversation(t, c);
  }

  /**
   A member enrolled by an accepted text reads a direct chat from its first message on, and a group
   from the message after those that were there: a newcomer sees nothing older.
   */
  lemma NewcomerWindow(t: Tables, c: Command, time: string, gap: nat, fault: Fault, uid: int)
    requires Inv(t) && Execute(t, c, time, gap, fault).1.Accepted?
    ensures var (after, reply) := Execute(t, c, time, gap, fault);
            var k := (reply.conversationId, uid);
            k in after.members && k !in t.members ==>
              && after.members[k].deliveredSeq == 0 && after.members[k].readSeq == 0
              && (c.DirectText? ==> after.members[k].joinedSeq == 1 && uid in {c.sender, c.receiver})
              && (c.GroupText? ==>
                    && (c.groupId, uid) in t.social.groupMembers
                    && after.members[k].joinedSeq ==
                       1 + if k.0 in t.conversations then t.conversations[k.0].latestSeq else 0)
  {
    MembersOfExact(t.social, Target(c), uid);
    hide Execute, Inv, MembersOf, Prepared;
    AcceptedMembers(t, c, time, gap, fault);
    EnrolledAs(t, c, uid);
  }

  // ---------------------------------------------------------------- what stays

  /** A conversation found through its business key goes on counting where it was. */
  lemma UpsertKeepsCounter(convs: Conversations, index: BusinessIndex, cid: int, kind: Kind, businessId: int)
    requires (kind, businessId) in index && index[(kind, businessId)] in convs
    ensures var (after, found) := Upserted(convs, index, cid, kind, businessId);
            && (kind, businessId) in found && found[(kind, businessId)] in after
            && after[found[(kind, businessId)]] == convs[index[(kind, businessId)]]
            && |after| == |convs|
  {
    if cid !in convs {
      var from := index[(kind, businessId)];
      assert |convs - {from}| == |convs| - 1 by {
        assert (convs - {from}).Keys == convs.Keys - {from};
      }
      assert ((convs - {from})[cid := convs[from]]).Keys == (convs - {from}).Keys + {cid};
    }
  }

  lemma MembershipStays(s: Social, e: Event, gid: int, u: int)
    requires (gid, u) in s.groupMembers
    ensures var after := SocialStep(s, e).groupMembers; (gid, u) in after && after[(gid, u)] == s.groupMembers[(gid, u)]
  {
  }

  /** The speech state a user joins a group with is the one every later text is judged by. */
  lemma {:induction false} JoinStands(t: Tables, es: seq<Event>, i: nat, n: nat, gid: int, u: int, speech: int)
    requires Inv(t) && i < n <= |es| && es[i] == JoinGroup(gid, u, speech)
    requires (gid, u) !in StateAt(t, es, i).social.groupMembers
    ensures var s := StateAt(t, es, n).social.groupMembers; (gid, u) in s && s[(gid, u)] == speech
    decreases n
  {
    hide Inv;
    assert StateAt(t, es, n) == Step(StateAt(t, es, n - 1), es[n - 1]);
    if n > i + 1 {
      JoinStands(t, es, i, n - 1, gid, u, speech);
      hide StateAt, Step, SocialStep;
      Resends.StepSocial(StateAt(t, es, n - 1), es[n - 1]);
      MembershipStays(StateAt(t, es, n - 1).social, es[n - 1], gid, u);
    }
  }

  lemma GroupStays(s: Social, e: Event, gid: int)
    requires gid in s.groups
    ensures gid in SocialStep(s, e).groups && SocialStep(s, e).groups[gid] == s.groups[gid]
  {
  }

  /** A group keeps the conversation it was created with. */
  lemma {:induction false} GroupStands(t: Tables, es: seq<Event>, i: nat, n: nat, gid: int, key: int)
    requires Inv(t) && i < n <= |es| && es[i] == CreateGroup(gid, key)
    requires var groups := StateAt(t, es, i).social.groups; gid !in groups && key !in groups.Values
    ensures var groups := StateAt(t, es, n).social.groups; gid in groups && groups[gid] == key
    decreases n
  {
    hide Inv;
    assert StateAt(t, es, n) == Step(StateAt(t, es, n - 1), es[n - 1]);
    if n > i + 1 {
      GroupStands(t, es, i, n - 1, gid, key);
      hide StateAt, Step, SocialStep;
      Resends.StepSocial(StateAt(t, es, n - 1), es[n - 1]);
      GroupStays(StateAt(t, es, n - 1).social, es[n - 1], gid);
    }
  }

  lemma StrangersStay(s: Social, e: Event, a: int, b: int)
    requires (a, b) !in s.friends && !(e.InsertFriend? && e.uidA == a && e.uidB == b)
    ensures (a, b) !in SocialStep(s, e).friends
  {
  }

  lemma {:induction false} Unfriended(t: Tables, es: seq<Event>, i: nat, n: nat, a: int, b: int)
    requires Inv(t) && i < n <= |es| && es[i] == RemoveFriend(a, b)
    requires forall k :: i < k < n ==> !(es[k].InsertFriend? && es[k].uidA == a && es[k].uidB == b)
    ensures (a, b) !in StateAt(t, es, n).social.friends
    decreases n
  {
    hide Inv;
    assert StateAt(t, es, n) == Step(StateAt(t, es, n - 1), es[n - 1]);
    if n > i + 1 {
      Unfriended(t, es, i, n - 1, a, b);
      hide StateAt, Step, SocialStep;
      Resends.StepSocial(StateAt(t, es, n - 1), es[n - 1]);
      StrangersStay(StateAt(t, es, n - 1).social, es[n - 1], a, b);
    }
  }

  /** After a friend is removed every text to them is refused, until they are a friend again. */
  lemma UnfriendedIsRefused(t: Tables, es: seq<Event>, i: nat, n: nat, c: Command, time: string, gap: nat, fault: Fault)
    requires Inv(t) && i < n <= |es| && c.DirectText? && es[i] == RemoveFriend(c.sender, c.receiver)
    requires forall k :: i < k < n ==> !(es[k].InsertFriend? && es[k].uidA == c.sender && es[k].uidB == c.receiver)
    ensures Execute(StateAt(t, es, n), c, time, gap, fault) == (StateAt(t, es, n), Failed(UserNotFriend))
  {
    hide Inv, StateAt;
    Unfriended(t, es, i, n, c.sender, c.receiver);
  }
}
