/**
 Accepting a text: the effect of the two accept transactions on the tables and the reply each
 gives.  A direct and a group text differ in how the conversation is found and who is enrolled
 in it; from there on they are one transaction.
 */
module Accept {
  import opened Options
  import opened MessageTables

  datatype Command =
    | DirectText(sender: int, receiver: int, clientMessageId: string, content: string)
    | GroupText(sender: int, groupId: int, clientMessageId: string, content: string)

  datatype Error =
    | JsonParser | UserNotFriend | MessageOwnershipInvalid | GroupNotifyFailed
    | IdempotencyConflict | MysqlFailed

  /** How the database fails: nothing, a rollback, or a commit whose answer is lost. */
  datatype Fault = NoFault | RolledBack | ReplyLost

  datatype Reply =
    | Failed(error: Error)
    | Accepted(messageId: int, conversationId: int, conversationSeq: nat, duplicate: bool, recipients: set<int>)

  datatype Route =
    | Refused(error: Error)
    | Routed(conversationId: int, kind: Kind, businessId: int, audience: set<int>)

  function Target(c: Command): int {
    match c
    case DirectText(_, receiver, _, _) => receiver
    case GroupText(_, groupId, _, _) => groupId
  }

  function Key(c: Command): (int, string) { (c.sender, c.clientMessageId) }

  function MembersOf(s: Social, groupId: int): set<int> {
    set k | k in s.groupMembers && k.0 == groupId :: k.1
  }

  /** The conversation a command belongs to and the users enrolled in it, or why it is refused. */
  function RouteOf(s: Social, c: Command): Route {
    match c
    case DirectText(sender, receiver, _, _) =>
      if (sender, receiver) !in s.friends then Refused(UserNotFriend)
      else
        var sessionId := s.friends[(sender, receiver)];
        Routed(sessionId, Direct, sessionId, {sender, receiver})
    case GroupText(sender, groupId, _, _) =>
      if groupId !in s.groups || (groupId, sender) !in s.groupMembers then Refused(MessageOwnershipInvalid)
      else if s.groupMembers[(groupId, sender)] != 0 then Refused(GroupNotifyFailed)
      else Routed(s.groups[groupId], Group, groupId, MembersOf(s, groupId))
  }

  function RecipientsOf(s: Social, c: Command): set<int> {
    match c
    case DirectText(_, receiver, _, _) => {receiver}
    case GroupText(sender, groupId, _, _) => MembersOf(s, groupId) - {sender}
  }

  /**
   INSERT ... ON DUPLICATE KEY UPDATE conversationId: an existing row stays as it is, but a row
   found through the (type, businessId) key is moved to the new conversation id.
   */
  function Upserted(convs: Conversations, index: BusinessIndex, cid: int, kind: Kind, businessId: int)
    : (Conversations, BusinessIndex)
    requires (kind, businessId) in index ==> index[(kind, businessId)] in convs
  {
    if cid in convs then (convs, index)
    else if (kind, businessId) in index then
      var from := index[(kind, businessId)];
      ((convs - {from})[cid := convs[from]], index[(kind, businessId) := cid])
    else (convs[cid := Conversation(kind, businessId, 0)], index[(kind, businessId) := cid])
  }

  /** INSERT IGNORE into conversationMembers. */
  function Enrolled(members: Members, cid: int, audience: set<int>, joinedSeq: nat): (r: Members)
    ensures forall k :: k in r <==> k in members || (k.0 == cid && k.1 in audience)
    ensures forall k :: k in r ==> r[k] == if k in members then members[k] else Member(joinedSeq, None, 0, 0)
  {
    (map u | u in audience :: (cid, u) := Member(joinedSeq, None, 0, 0)) + members
  }

  /** Where a newly enrolled member starts reading: a direct chat from its first message, a group from the next. */
  function JoinedSeq(kind: Kind, latestSeq: nat): nat {
    if kind == Direct then 1 else latestSeq + 1
  }

  function Prepared(t: Tables, r: Route): (p: Tables)
    requires r.Routed? && BusinessKeys(t.conversations, t.byBusiness, t.social.groups)
    ensures r.conversationId in p.conversations
  {
    var (convs, index) := Upserted(t.conversations, t.byBusiness, r.conversationId, r.kind, r.businessId);
    var joinedSeq := JoinedSeq(r.kind, convs[r.conversationId].latestSeq);
    t.(conversations := convs, byBusiness := index,
       members := Enrolled(t.members, r.conversationId, r.audience, joinedSeq))
  }

  predicate SameCommand(m: Message, c: Command, cid: int) {
    m.conversationId == cid && m.receiverId == Target(c) && m.msgType == TEXT && m.content == c.content
  }

  function NewMessage(c: Command, cid: int, seqNo: nat, sendDateTime: string): Message {
    Message(c.sender, Target(c), cid, seqNo, c.clientMessageId, TEXT, c.content, WAIT, sendDateTime, "")
  }

  function Inserted(l: Log, id: int, m: Message): Log {
    Log(l.messages[id := m], l.byClient[ClientKey(m) := id], l.bySeq[SeqKey(m) := id], id + 1)
  }

  function Advanced(convs: Conversations, cid: int): Conversations
    requires cid in convs
  {
    convs[cid := convs[cid].(latestSeq := convs[cid].latestSeq + 1)]
  }

  /** What the caller and the tables see once the transaction ends. */
  function Finish(t: Tables, p: Tables, reply: Reply, gap: nat, fault: Fault): (Tables, Reply) {
    match fault
    case NoFault => (p, reply)
    case RolledBack => (t.(log := t.log.(nextId := t.log.nextId + gap)), Failed(MysqlFailed))
    case ReplyLost => (p, Failed(MysqlFailed))
  }

  /** Advance latestSeq and insert the row; the auto-increment counter may skip `gap` ids first. */
  function Appended(p: Tables, c: Command, cid: int, sendDateTime: string, gap: nat): Tables
    requires cid in p.conversations
  {
    var m := NewMessage(c, cid, p.conversations[cid].latestSeq + 1, sendDateTime);
    p.(conversations := Advanced(p.conversations, cid), log := Inserted(p.log, p.log.nextId + gap, m))
  }

  /** With the conversation prepared as `p`: answer a repeated command with its row, or append a new one. */
  function Settled(t: Tables, p: Tables, c: Command, cid: int, recipients: set<int>, sendDateTime: string, gap: nat, fault: Fault)
    : (Tables, Reply)
    requires cid in p.conversations && ClientIndexed(p.log.messages, p.log.byClient)
  {
    if Key(c) in p.log.byClient then
      var id := p.log.byClient[Key(c)];
      var row := p.log.messages[id];
      if SameCommand(row, c, cid) then
        Finish(t, p, Accepted(id, cid, row.conversationSeq, true, recipients), gap, fault)
      else (t, Failed(IdempotencyConflict))
    else
      var reply := Accepted(p.log.nextId + gap, cid, p.conversations[cid].latestSeq + 1, false, recipients);
      Finish(t, Appended(p, c, cid, sendDateTime, gap), reply, gap, fault)
  }

  function Execute(t: Tables, c: Command, sendDateTime: string, gap: nat, fault: Fault): (Tables, Reply)
    requires Inv(t)
  {
    var r := RouteOf(t.social, c);
    if r.Refused? then (t, Failed(r.error))
    else Settled(t, Prepared(t, r), c, r.conversationId, RecipientsOf(t.social, c), sendDateTime, gap, fault)
  }

  predicate ShouldDeliver(reply: Reply) { reply.Accepted? && !reply.duplicate }

  /**
   How a command is answered, told from the route and the client index alone: as new exactly when
   it is routed, its key is free and nothing fails; as a duplicate exactly when the key holds the
   same command; as a conflict exactly when it holds another one.
   */
  lemma AnswerExact(t: Tables, c: Command, sendDateTime: string, gap: nat, fault: Fault)
    requires Inv(t)
    ensures var r, reply := RouteOf(t.social, c), Execute(t, c, sendDateTime, gap, fault).1;
            var known := Key(c) in t.log.byClient;
            var same := known && r.Routed? && SameCommand(t.log.messages[t.log.byClient[Key(c)]], c, r.conversationId);
            && (ShouldDeliver(reply) <==> r.Routed? && !known && fault == NoFault)
            && (reply.Accepted? && reply.duplicate <==> same && fault == NoFault)
            && (reply == Failed(IdempotencyConflict) <==> r.Routed? && known && !same)
            && (reply == Failed(MysqlFailed) <==> r.Routed? && (known ==> same) && fault != NoFault)
            && (reply.Accepted? ==> reply.conversationId == r.conversationId && reply.recipients == RecipientsOf(t.social, c))
            && (ShouldDeliver(reply) ==>
                  reply.conversationSeq == 1 + if r.conversationId in t.conversations then t.conversations[r.conversationId].latestSeq else 0)
  {
    UpsertNeverMovesIfRouted(t, c);
    hide SeqIndexed, Dense, IdsOrdered, StatusesSound, MembersBounded, Enrolled, MembersOf;
  }

  // ---------------------------------------------------------------- preparing the conversation

  lemma UpsertNeverMovesIfRouted(t: Tables, c: Command)
    requires Inv(t)
    ensures var r := RouteOf(t.social, c);
            r.Routed? && r.conversationId !in t.conversations ==> (r.kind, r.businessId) !in t.byBusiness
  {
    if RouteOf(t.social, c).Routed? {
      UpsertNeverMoves(t, c);
    }
  }

  /** With the business keys in order, the upsert never moves a conversation: it inserts or does nothing. */
  lemma UpsertNeverMoves(t: Tables, c: Command)
    requires BusinessKeys(t.conversations, t.byBusiness, t.social.groups) && RouteOf(t.social, c).Routed?
    ensures var r := RouteOf(t.social, c);
            r.conversationId !in t.conversations ==> (r.kind, r.businessId) !in t.byBusiness
  {
    var r := RouteOf(t.social, c);
    if (r.kind, r.businessId) in t.byBusiness {
      var from := t.byBusiness[(r.kind, r.businessId)];
      assert OwnsBusinessKey(from, t.conversations[from], t.social.groups);
    }
  }

  lemma NewConversationKeeps(convs: Conversations, index: SeqIndex, members: Members, cid: int, conv: Conversation)
    requires Dense(convs, index) && MembersBounded(members, convs) && cid !in convs && conv.latestSeq == 0
    ensures var later := convs[cid := conv];
            Dense(later, index) && MembersBounded(members, later) && ConversationsGrow(convs, later)
  {
  }

  /** A new conversation under a free business key keeps the keys in order. */
  lemma NewBusinessKey(convs: Conversations, index: BusinessIndex, groups: map<int, int>, cid: int, conv: Conversation)
    requires BusinessKeys(convs, index, groups) && cid !in convs && (conv.kind, conv.businessId) !in index
    requires OwnsBusinessKey(cid, conv, groups)
    ensures BusinessKeys(convs[cid := conv], index[(conv.kind, conv.businessId) := cid], groups)
  {
    hide OwnsBusinessKey;
  }

  lemma RouteOwnsKey(s: Social, c: Command)
    requires RouteOf(s, c).Routed?
    ensures var r := RouteOf(s, c); OwnsBusinessKey(r.conversationId, Conversation(r.kind, r.businessId, 0), s.groups)
  {
    hide MembersOf;
  }

  lemma UpsertKeeps(t: Tables, c: Command)
    requires Inv(t) && RouteOf(t.social, c).Routed?
    ensures var r := RouteOf(t.social, c);
            var (convs, index) := Upserted(t.conversations, t.byBusiness, r.conversationId, r.kind, r.businessId);
            && Dense(convs, t.log.bySeq) && BusinessKeys(convs, index, t.social.groups)
            && ConversationsGrow(t.conversations, convs) && MembersBounded(t.members, convs)
  {
    hide ClientIndexed, SeqIndexed, IdsOrdered, StatusesSound, Dense, MembersBounded, RouteOf, OwnsBusinessKey;
    UpsertNeverMoves(t, c);
    var r := RouteOf(t.social, c);
    if r.conversationId !in t.conversations {
      RouteOwnsKey(t.social, c);
      NewBusinessKey(t.conversations, t.byBusiness, t.social.groups, r.conversationId, Conversation(r.kind, r.businessId, 0));
      NewConversationKeeps(t.conversations, t.log.bySeq, t.members, r.conversationId, Conversation(r.kind, r.businessId, 0));
    }
  }

  lemma EnrolKeeps(members: Members, convs: Conversations, cid: int, audience: set<int>, joinedSeq: nat)
    requires MembersBounded(members, convs) && cid in convs && 1 <= joinedSeq <= convs[cid].latestSeq + 1
    ensures var e := Enrolled(members, cid, audience, joinedSeq); MembersBounded(e, convs) && MembersGrow(members, e)
  {
  }

  lemma PreparedKeepsInv(t: Tables, c: Command)
    requires Inv(t) && RouteOf(t.social, c).Routed?
    ensures var p := Prepared(t, RouteOf(t.social, c)); Inv(p) && Grows(t, p)
  {
    GrowsReflexive(t);
    UpsertKeeps(t, c);
    var r := RouteOf(t.social, c);
    var (convs, _) := Upserted(t.conversations, t.byBusiness, r.conversationId, r.kind, r.businessId);
    hide ClientIndexed, SeqIndexed, Dense, IdsOrdered, StatusesSound, MembersBounded, BusinessKeys,
      LogGrows, ConversationsGrow, MembersGrow;
    EnrolKeeps(t.members, convs, r.conversationId, r.audience, JoinedSeq(r.kind, convs[r.conversationId].latestSeq));
  }

  // ---------------------------------------------------------------- appending a row

  lemma ClientIndexInsert(rows: Messages, index: ClientIndex, id: int, m: Message)
    requires ClientIndexed(rows, index) && id !in rows && ClientKey(m) !in index
    ensures ClientIndexed(rows[id := m], index[ClientKey(m) := id])
  {
  }

  lemma SeqIndexInsert(rows: Messages, index: SeqIndex, id: int, m: Message)
    requires SeqIndexed(rows, index) && id !in rows && SeqKey(m) !in index
    ensures SeqIndexed(rows[id := m], index[SeqKey(m) := id])
  {
  }

  lemma DenseInsert(convs: Conversations, index: SeqIndex, c: int, id: int)
    requires Dense(convs, index) && c in convs
    ensures var latest := convs[c].latestSeq + 1;
            (c, latest) !in index && Dense(Advanced(convs, c), index[(c, latest) := id])
  {
  }

  lemma OrderedInsert(l: Log, convs: Conversations, id: int, m: Message)
    requires IdsOrdered(l.messages, l.nextId) && SeqIndexed(l.messages, l.bySeq) && Dense(convs, l.bySeq) && l.nextId <= id
    requires m.conversationId in convs && m.conversationSeq == convs[m.conversationId].latestSeq + 1
    ensures id !in l.messages && IdsOrdered(l.messages[id := m], id + 1)
  {
    forall i | i in l.messages && l.messages[i].conversationId == m.conversationId
      ensures l.messages[i].conversationSeq < m.conversationSeq
    {
      assert SeqKey(l.messages[i]) in l.bySeq;
    }
  }

  lemma LogInsert(l: Log, convs: Conversations, id: int, m: Message)
    requires LogInv(l, convs) && l.nextId <= id && ClientKey(m) !in l.byClient && StatusSound(m)
    requires m.conversationId in convs && m.conversationSeq == convs[m.conversationId].latestSeq + 1
    ensures LogInv(Inserted(l, id, m), Advanced(convs, m.conversationId))
  {
    hide ClientIndexed, SeqIndexed, Dense, IdsOrdered;
    OrderedInsert(l, convs, id, m);
    DenseInsert(convs, l.bySeq, m.conversationId, id);
    ClientIndexInsert(l.messages, l.byClient, id, m);
    SeqIndexInsert(l.messages, l.bySeq, id, m);
  }

  lemma LogInsertGrows(l: Log, convs: Conversations, id: int, m: Message)
    requires LogInv(l, convs) && l.nextId <= id && ClientKey(m) !in l.byClient
    requires m.conversationId in convs && m.conversationSeq == convs[m.conversationId].latestSeq + 1
    ensures LogGrows(l, Inserted(l, id, m))
  {
    OrderedInsert(l, convs, id, m);
    DenseInsert(convs, l.bySeq, m.conversationId, id);
    hide ClientIndexed, SeqIndexed, Dense, IdsOrdered, StatusesSound;
  }

  lemma AdvancedKeeps(members: Members, convs: Conversations, business: BusinessIndex, groups: map<int, int>, c: int)
    requires MembersBounded(members, convs) && BusinessKeys(convs, business, groups) && c in convs
    ensures var later := Advanced(convs, c);
            MembersBounded(members, later) && BusinessKeys(later, business, groups) && ConversationsGrow(convs, later)
  {
  }

  lemma AppendedKeepsInv(p: Tables, c: Command, cid: int, sendDateTime: string, gap: nat)
    requires Inv(p) && cid in p.conversations && Key(c) !in p.log.byClient
    ensures var q := Appended(p, c, cid, sendDateTime, gap); Inv(q) && Grows(p, q)
  {
    hide LogInv, LogGrows, MembersBounded, BusinessKeys, ConversationsGrow;
    var m := NewMessage(c, cid, p.conversations[cid].latestSeq + 1, sendDateTime);
    LogInsert(p.log, p.conversations, p.log.nextId + gap, m);
    LogInsertGrows(p.log, p.conversations, p.log.nextId + gap, m);
    AdvancedKeeps(p.members, p.conversations, p.byBusiness, p.social.groups, cid);
  }

  // ---------------------------------------------------------------- one transaction

  /** A rolled-back transaction may still burn message ids. */
  lemma BurnedIdsKeepInv(t: Tables, gap: nat)
    requires Inv(t)
    ensures var u := t.(log := t.log.(nextId := t.log.nextId + gap)); Inv(u) && Grows(t, u)
  {
  }

  /** Whatever the command, the database's mood and the reply: the invariant stays and the tables only grow. */
  lemma ExecuteKeepsInv(t: Tables, c: Command, sendDateTime: string, gap: nat, fault: Fault)
    requires Inv(t)
    ensures var u := Execute(t, c, sendDateTime, gap, fault).0; Inv(u) && Grows(t, u)
  {
    hide ClientIndexed, SeqIndexed, Dense, IdsOrdered, StatusesSound, MembersBounded, BusinessKeys, Grows,
      Upserted, Enrolled, Appended, MembersOf;
    GrowsReflexive(t);
    BurnedIdsKeepInv(t, gap);
    var r := RouteOf(t.social, c);
    if r.Routed? {
      PreparedKeepsInv(t, c);
      var p := Prepared(t, r);
      if Key(c) !in t.log.byClient {
        AppendedKeepsInv(p, c, r.conversationId, sendDateTime, gap);
        GrowsTransitive(t, p, Appended(p, c, r.conversationId, sendDateTime, gap));
      }
    }
  }
}
