/**
 The tables behind the Message node: friends, groups, conversations, members and messages,
 each as a map from its primary key.  A unique key of the schema is a map of its own, so that
 "at most one row per key" is a statement about rows and not a matter of how rows are stored.
 */
module MessageTables {
  import opened Options

  datatype Kind = Direct | Group

  datatype Conversation = Conversation(kind: Kind, businessId: int, latestSeq: nat)

  datatype Member = Member(joinedSeq: nat, leftSeq: Option<nat>, deliveredSeq: nat, readSeq: nat)

  datatype Message = Message(
    senderId: int, receiverId: int, conversationId: int, conversationSeq: nat,
    clientMessageId: string, msgType: int, content: string,
    status: int, sendDateTime: string, readDateTime: string)

  // The status values are ordered so that GREATEST advances them.
  const WAIT := 1
  const DELIVERED := 2
  const READ := 3
  const TEXT := 1

  type Messages = map<int, Message>                    // by messageId
  type Conversations = map<int, Conversation>          // by conversationId
  type Members = map<(int, int), Member>               // by (conversationId, uid)
  type BusinessIndex = map<(Kind, int), int>           // uk_conversations_type_business
  type ClientIndex = map<(int, string), int>           // uk_messages_sender_client
  type SeqIndex = map<(int, int), int>                 // uk_messages_conversation_seq

  datatype Social = Social(
    friends: map<(int, int), int>,                     // (uidA, uidB) -> sessionId
    groups: map<int, int>,                             // gid -> sessionKey
    groupMembers: map<(int, int), int>)                // (gid, uid) -> speech

  /** The messages with their indexes and the auto-increment counter. */
  datatype Log = Log(messages: Messages, byClient: ClientIndex, bySeq: SeqIndex, nextId: int)

  datatype Tables = Tables(
    social: Social, conversations: Conversations, byBusiness: BusinessIndex, members: Members, log: Log)

  function ClientKey(m: Message): (int, string) { (m.senderId, m.clientMessageId) }

  function SeqKey(m: Message): (int, int) { (m.conversationId, m.conversationSeq) }

  // ---------------------------------------------------------------- invariants

  /** A unique index and the rows describe each other. */
  ghost predicate ClientIndexed(rows: Messages, index: ClientIndex) {
    && (forall id :: id in rows ==> ClientKey(rows[id]) in index && index[ClientKey(rows[id])] == id)
    && (forall k :: k in index ==> index[k] in rows && ClientKey(rows[index[k]]) == k)
  }

  ghost predicate SeqIndexed(rows: Messages, index: SeqIndex) {
    && (forall id :: id in rows ==> SeqKey(rows[id]) in index && index[SeqKey(rows[id])] == id)
    && (forall k :: k in index ==> index[k] in rows && SeqKey(rows[index[k]]) == k)
  }

  /** A conversation's sequence numbers are exactly 1..latestSeq. */
  ghost predicate Dense(convs: Conversations, index: SeqIndex) {
    && (forall k :: k in index ==> k.0 in convs && 1 <= k.1 <= convs[k.0].latestSeq)
    && (forall c, s :: c in convs && 1 <= s <= convs[c].latestSeq ==> (c, s) in index)
  }

  /** Message ids are handed out in increasing order, and so agree with the sequence numbers. */
  ghost predicate IdsOrdered(rows: Messages, next: int) {
    && 0 < next
    && (forall id :: id in rows ==> 0 < id < next)
    && (forall i, j :: i in rows && j in rows && i < j && rows[i].conversationId == rows[j].conversationId ==>
          rows[i].conversationSeq < rows[j].conversationSeq)
  }

  /** A message carries a read time exactly when it is READ. */
  predicate StatusSound(m: Message) {
    WAIT <= m.status <= READ && (m.status == READ <==> m.readDateTime != "")
  }

  ghost predicate StatusesSound(rows: Messages) {
    forall id :: id in rows ==> StatusSound(rows[id])
  }

  ghost predicate LogInv(l: Log, convs: Conversations) {
    && ClientIndexed(l.messages, l.byClient)
    && SeqIndexed(l.messages, l.bySeq)
    && Dense(convs, l.bySeq)
    && IdsOrdered(l.messages, l.nextId)
    && StatusesSound(l.messages)
  }

  /** A member joined no later than the next message, and its cursors stay inside the log. */
  predicate MemberBounded(m: Member, latestSeq: nat) {
    && m.leftSeq == None
    && 1 <= m.joinedSeq <= latestSeq + 1
    && m.readSeq <= m.deliveredSeq <= latestSeq
  }

  ghost predicate MembersBounded(members: Members, convs: Conversations) {
    forall k :: k in members ==> k.0 in convs && MemberBounded(members[k], convs[k.0].latestSeq)
  }

  /** A direct conversation is its own business key; a group conversation is its group's session. */
  predicate OwnsBusinessKey(c: int, conv: Conversation, groups: map<int, int>) {
    match conv.kind
    case Direct => conv.businessId == c
    case Group => conv.businessId in groups && groups[conv.businessId] == c
  }

  ghost predicate BusinessKeys(convs: Conversations, index: BusinessIndex, groups: map<int, int>) {
    && (forall c :: c in convs ==> OwnsBusinessKey(c, convs[c], groups))
    && (forall k :: k in index ==>
          index[k] in convs && convs[index[k]].kind == k.0 && convs[index[k]].businessId == k.1)
  }

  ghost predicate Inv(t: Tables) {
    && LogInv(t.log, t.conversations)
    && MembersBounded(t.members, t.conversations)
    && BusinessKeys(t.conversations, t.byBusiness, t.social.groups)
  }

  /** The schema before its first row. */
  function EmptyTables(): (t: Tables)
    ensures Inv(t)
  {
    Tables(Social(map[], map[], map[]), map[], map[], map[], Log(map[], map[], map[], 1))
  }

  // ---------------------------------------------------------------- what only grows

  /** The columns of a message no statement ever rewrites. */
  function Fixed(m: Message): Message { m.(status := WAIT, readDateTime := "") }

  predicate MessageGrows(a: Message, b: Message) {
    && Fixed(a) == Fixed(b)
    && a.status <= b.status
    && (a.readDateTime != "" ==> b.readDateTime == a.readDateTime)
  }

  ghost predicate MessagesGrow(a: Messages, b: Messages) {
    forall id :: id in a ==> id in b && MessageGrows(a[id], b[id])
  }

  ghost predicate IndexGrows<K, V>(a: map<K, V>, b: map<K, V>) {
    forall k :: k in a ==> k in b && b[k] == a[k]
  }

  ghost predicate LogGrows(a: Log, b: Log) {
    && MessagesGrow(a.messages, b.messages)
    && IndexGrows(a.byClient, b.byClient)
    && IndexGrows(a.bySeq, b.bySeq)
    && a.nextId <= b.nextId
  }

  predicate ConversationGrows(a: Conversation, b: Conversation) {
    b.kind == a.kind && b.businessId == a.businessId && a.latestSeq <= b.latestSeq
  }

  ghost predicate ConversationsGrow(a: Conversations, b: Conversations) {
    forall c :: c in a ==> c in b && ConversationGrows(a[c], b[c])
  }

  predicate MemberGrows(a: Member, b: Member) {
    && b.joinedSeq == a.joinedSeq && b.leftSeq == a.leftSeq
    && a.deliveredSeq <= b.deliveredSeq && a.readSeq <= b.readSeq
  }

  ghost predicate MembersGrow(a: Members, b: Members) {
    forall k :: k in a ==> k in b && MemberGrows(a[k], b[k])
  }

  /**
   Later tables extend earlier ones: no row disappears, the fixed columns stay, statuses and
   cursors only rise, and a read time, once set, is never replaced.
   */
  ghost predicate Grows(t: Tables, u: Tables) {
    LogGrows(t.log, u.log) && ConversationsGrow(t.conversations, u.conversations) && MembersGrow(t.members, u.members)
  }

  lemma LogGrowsTransitive(a: Log, b: Log, c: Log)
    requires LogGrows(a, b) && LogGrows(b, c)
    ensures LogGrows(a, c)
  {
  }

  lemma GrowsTransitive(t: Tables, u: Tables, v: Tables)
    requires Grows(t, u) && Grows(u, v)
    ensures Grows(t, v)
  {
    LogGrowsTransitive(t.log, u.log, v.log);
    hide LogGrows;
  }

  /** What growing says of one message, one conversation and one member. */
  lemma GrowsAt(t: Tables, u: Tables, id: int, c: int, k: (int, int))
    requires Grows(t, u)
    ensures id in t.log.messages ==> id in u.log.messages && MessageGrows(t.log.messages[id], u.log.messages[id])
    ensures c in t.conversations ==> c in u.conversations && ConversationGrows(t.conversations[c], u.conversations[c])
    ensures k in t.members ==> k in u.members && MemberGrows(t.members[k], u.members[k])
  {
  }

  lemma GrowsReflexive(t: Tables)
    ensures Grows(t, t)
  {
  }

  /** Everything but the auto-increment counter, which a rolled-back transaction may still advance. */
  ghost predicate SameRows(t: Tables, u: Tables) {
    u.(log := u.log.(nextId := t.log.nextId)) == t
  }
}
