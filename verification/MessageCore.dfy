/**
 Whole runs of the Message node: any interleaving of sends, resends, receipts, cursor moves and
 changes of friends and groups, with a database that may roll back or lose its answer.
 */
module MessageCore {
  import opened Options
  import opened MessageTables
  import opened Accept
  import opened Receipts

  datatype TextRequest = TextRequest(
    group: bool, uid: int, target: int, hasClientId: bool, clientId: string, seqNo: int, data: string)

  datatype Event =
    | Send(request: TextRequest, sendDateTime: string, gap: nat, sendFault: Fault)
    | Ack(ack: AckRequest, now: Timestamp, ackFault: Fault)
    | AdvanceCursor(uid: int, cid: int, seqNo: int, read: bool)
    | InsertFriend(uidA: int, uidB: int, sessionId: int)
    | RemoveFriend(uidA: int, uidB: int)
    | CreateGroup(gid: int, sessionKey: int)
    | JoinGroup(gid: int, member: int, speech: int)

  function Digits(n: nat): string {
    if n < 10 then ["0123456789"[n]] else Digits(n / 10) + ["0123456789"[n % 10]]
  }

  function Decimal(n: int): string { if n < 0 then "-" + Digits(-n) else Digits(n) }

  function ClientMessageId(r: TextRequest): string {
    if r.hasClientId && r.clientId != "" then r.clientId else Decimal(r.seqNo)
  }

  /** The command a packet asks for, unless a required field is missing. */
  function CommandOf(r: TextRequest): Option<Command> {
    if r.uid <= 0 || r.target <= 0 || r.data == "" || ClientMessageId(r) == "" || (!r.hasClientId && r.seqNo <= 0) then None
    else if r.group then Some(GroupText(r.uid, r.target, ClientMessageId(r), r.data))
    else Some(DirectText(r.uid, r.target, ClientMessageId(r), r.data))
  }

  function SocialStep(s: Social, e: Event): Social {
    match e
    case InsertFriend(a, b, sessionId) => if (a, b) in s.friends then s else s.(friends := s.friends[(a, b) := sessionId])
    case RemoveFriend(a, b) => s.(friends := s.friends - {(a, b)})
    case CreateGroup(gid, key) => if gid in s.groups || key in s.groups.Values then s else s.(groups := s.groups[gid := key])
    case JoinGroup(gid, u, speech) =>
      if (gid, u) in s.groupMembers then s else s.(groupMembers := s.groupMembers[(gid, u) := speech])
    case _ => s
  }

  function SendStep(t: Tables, e: Event): (Tables, Reply)
    requires e.Send? && Inv(t)
  {
    match CommandOf(e.request)
    case None => (t, Failed(JsonParser))
    case Some(c) => Execute(t, c, e.sendDateTime, e.gap, e.sendFault)
  }

  function Step(t: Tables, e: Event): Tables
    requires Inv(t)
  {
    match e
    case Send(_, _, _, _) => SendStep(t, e).0
    case Ack(r, now, fault) => Acknowledge(t, r, now, fault).0
    case AdvanceCursor(uid, cid, seqNo, read) => CursorAdvanced(t, uid, cid, seqNo, read)
    case _ => t.(social := SocialStep(t.social, e))
  }

  lemma SocialStepKeepsInv(t: Tables, e: Event)
    requires Inv(t)
    ensures var u := t.(social := SocialStep(t.social, e)); Inv(u) && Grows(t, u)
  {
    GrowsReflexive(t);
    hide LogInv, MembersBounded, LogGrows, ConversationsGrow, MembersGrow;
  }

  lemma StepKeepsInv(t: Tables, e: Event)
    requires Inv(t)
    ensures Inv(Step(t, e)) && Grows(t, Step(t, e))
  {
    hide Inv, Grows, Execute, Acknowledge, CursorAdvanced, SocialStep;
    GrowsReflexive(t);
    match e
    case Send(r, time, gap, fault) =>
      if CommandOf(r).Some? {
        ExecuteKeepsInv(t, CommandOf(r).value, time, gap, fault);
      }
    case Ack(r, now, fault) => AcknowledgeKeepsInv(t, r, now, fault);
    case AdvanceCursor(uid, cid, seqNo, read) => CursorAdvancedKeepsInv(t, uid, cid, seqNo, read);
    case _ => SocialStepKeepsInv(t, e);
  }

  /** The tables after the first n events of a run; every reachable state satisfies the invariant. */
  ghost function StateAt(t: Tables, es: seq<Event>, n: nat): (u: Tables)
    requires Inv(t) && n <= |es|
    ensures Inv(u)
    decreases n
  {
    if n == 0 then t
    else
      var u := StateAt(t, es, n - 1);
      StepKeepsInv(u, es[n - 1]);
      Step(u, es[n - 1])
  }

  lemma {:induction false} RunGrows(t: Tables, es: seq<Event>, i: nat, j: nat)
    requires Inv(t) && i <= j <= |es|
    ensures Grows(StateAt(t, es, i), StateAt(t, es, j))
    decreases j
  {
    hide Inv, Grows, Step;
    if i == j {
      GrowsReflexive(StateAt(t, es, i));
    } else {
      RunGrows(t, es, i, j - 1);
      StepKeepsInv(StateAt(t, es, j - 1), es[j - 1]);
      GrowsTransitive(StateAt(t, es, i), StateAt(t, es, j - 1), StateAt(t, es, j));
    }
  }

  // ---------------------------------------------------------------- dense log

  ghost function SeqNumbers(rows: Messages, c: int): set<int> {
    set id | id in rows && rows[id].conversationId == c :: rows[id].conversationSeq
  }

  /**
   In every reachable state a conversation's messages carry exactly the numbers 1..latestSeq,
   each once, and the order of sequence numbers is the order of message ids.
   */
  lemma DenseLog(t: Tables, es: seq<Event>, n: nat, c: int)
    requires Inv(t) && n <= |es| && c in StateAt(t, es, n).conversations
    ensures var u := StateAt(t, es, n);
            forall s :: s in SeqNumbers(u.log.messages, c) <==> 1 <= s <= u.conversations[c].latestSeq
    ensures var rows := StateAt(t, es, n).log.messages;
            forall i, j :: i in rows && j in rows && rows[i].conversationId == c && rows[j].conversationId == c ==>
                             (i < j <==> rows[i].conversationSeq < rows[j].conversationSeq)
  {
    var u := StateAt(t, es, n);
    NumbersDense(u.log, u.conversations, c);
    hide SeqIndexed, ClientIndexed, Dense, StatusesSound, MembersBounded, BusinessKeys, SeqNumbers, StateAt;
  }

  lemma NumbersDense(l: Log, convs: Conversations, c: int)
    requires SeqIndexed(l.messages, l.bySeq) && Dense(convs, l.bySeq) && c in convs
    ensures forall s :: s in SeqNumbers(l.messages, c) <==> 1 <= s <= convs[c].latestSeq
  {
    forall s | s in SeqNumbers(l.messages, c)
      ensures 1 <= s <= convs[c].latestSeq
    {
      var id :| id in l.messages && l.messages[id].conversationId == c && l.messages[id].conversationSeq == s;
      assert SeqKey(l.messages[id]) in l.bySeq;
    }
    forall s | 1 <= s <= convs[c].latestSeq
      ensures s in SeqNumbers(l.messages, c)
    {
      assert (c, s) in l.bySeq;
      var id := l.bySeq[(c, s)];
      assert SeqKey(l.messages[id]) == (c, s);
      assert l.messages[id].conversationSeq in SeqNumbers(l.messages, c);
    }
  }

  // ---------------------------------------------------------------- exactly once

  ghost predicate StoredAs(t: Tables, c: Command, id: int, cid: int, seqNo: nat) {
    && Key(c) in t.log.byClient && t.log.byClient[Key(c)] == id
    && id in t.log.messages && SeqKey(t.log.messages[id]) == (cid, seqNo) && SameCommand(t.log.messages[id], c, cid)
  }

  /** An accepted reply names a row that is in the tables from then on. */
  lemma AcceptedIsStored(t: Tables, c: Command, time: string, gap: nat, fault: Fault, later: Tables)
    requires Inv(t) && Execute(t, c, time, gap, fault).1.Accepted? && Grows(Execute(t, c, time, gap, fault).0, later)
    ensures var reply := Execute(t, c, time, gap, fault).1;
            StoredAs(later, c, reply.messageId, reply.conversationId, reply.conversationSeq)
  {
    StoredWhenAccepted(t, c, time, gap, fault);
    hide Inv, Grows, Execute, StoredAs;
    var (u, reply) := Execute(t, c, time, gap, fault);
    StoredStays(u, later, c, reply.messageId, reply.conversationId, reply.conversationSeq);
  }

  lemma StoredWhenAccepted(t: Tables, c: Command, time: string, gap: nat, fault: Fault)
    requires Inv(t) && Execute(t, c, time, gap, fault).1.Accepted?
    ensures var (u, reply) := Execute(t, c, time, gap, fault);
            StoredAs(u, c, reply.messageId, reply.conversationId, reply.conversationSeq)
  {
    hide SeqIndexed, Dense, IdsOrdered, StatusesSound, MembersBounded, Upserted, Enrolled, MembersOf;
    if Key(c) !in t.log.byClient {
      hide ClientIndexed;
    }
  }

  lemma StoredStays(u: Tables, later: Tables, c: Command, id: int, cid: int, seqNo: nat)
    requires StoredAs(u, c, id, cid, seqNo) && Grows(u, later)
    ensures StoredAs(later, c, id, cid, seqNo)
  {
    GrowsAt(u, later, id, 0, (0, 0));
    var a, b := u.log.messages[id], later.log.messages[id];
    FixedColumns(a, b);
    assert Fixed(a).msgType == Fixed(b).msgType && Fixed(a).content == Fixed(b).content;
  }

  /** Once its key is taken a command never inserts: it is answered with the stored row or refused. */
  lemma StoredIsDuplicate(t: Tables, c: Command, id: int, cid: int, seqNo: nat, time: string, gap: nat, fault: Fault)
    requires Inv(t) && StoredAs(t, c, id, cid, seqNo)
    ensures var (u, reply) := Execute(t, c, time, gap, fault);
            && (reply.Accepted? ==>
                  reply.messageId == id && reply.conversationId == cid && reply.conversationSeq == seqNo && reply.duplicate)
            && u.log.(nextId := t.log.nextId) == t.log
            && u.social == t.social
  {
    hide SeqIndexed, Dense, IdsOrdered, StatusesSound, MembersBounded, Upserted, Enrolled, MembersOf;
  }

  /** The reply to the n-th event of a run, when it is a send. */
  ghost function ReplyAt(t: Tables, es: seq<Event>, n: nat): Reply
    requires Inv(t) && n < |es| && es[n].Send?
  {
    SendStep(StateAt(t, es, n), es[n]).1
  }

  ghost predicate IsSend(es: seq<Event>, n: nat, c: Command) {
    n < |es| && es[n].Send? && CommandOf(es[n].request) == Some(c)
  }

  /**
   Over any run, with resends, retries on other nodes, rollbacks and lost answers in between:
   two accepted replies for the same sender and client id name the same message, conversation
   and sequence number, only the first may ask for a delivery, and a key has at most one row.
   */
  lemma ExactlyOnce(t: Tables, es: seq<Event>, i: nat, j: nat, c: Command, d: Command)
    requires Inv(t) && i < j && IsSend(es, i, c) && IsSend(es, j, d) && Key(c) == Key(d)
    requires ReplyAt(t, es, i).Accepted? && ReplyAt(t, es, j).Accepted?
    ensures var a, b := ReplyAt(t, es, i), ReplyAt(t, es, j);
            && a.messageId == b.messageId && a.conversationId == b.conversationId && a.conversationSeq == b.conversationSeq
            && !ShouldDeliver(b)
    ensures var rows := StateAt(t, es, |es|).log.messages;
            forall x, y :: x in rows && y in rows && ClientKey(rows[x]) == ClientKey(rows[y]) ==> x == y
  {
    var s, u := StateAt(t, es, i), StateAt(t, es, j);
    RunGrows(t, es, i + 1, j);
    var e, f := es[i], es[j];
    var a := ReplyAt(t, es, i);
    AcceptedIsStored(s, c, e.sendDateTime, e.gap, e.sendFault, u);
    AcceptedSame(u, c, d, f.sendDateTime, f.gap, f.sendFault, a.messageId, a.conversationId, a.conversationSeq);
    OneRowPerKey(StateAt(t, es, |es|));
    hide Inv, Grows, Execute;
  }

  lemma OneRowPerKey(t: Tables)
    requires Inv(t)
    ensures var rows := t.log.messages;
            forall x, y :: x in rows && y in rows && ClientKey(rows[x]) == ClientKey(rows[y]) ==> x == y
  {
  }

  /** An accepted command under a taken key is the stored command itself. */
  lemma AcceptedSame(t: Tables, c: Command, d: Command, time: string, gap: nat, fault: Fault, id: int, cid: int, seqNo: nat)
    requires Inv(t) && StoredAs(t, c, id, cid, seqNo) && Key(c) == Key(d) && Execute(t, d, time, gap, fault).1.Accepted?
    ensures var reply := Execute(t, d, time, gap, fault).1;
            reply.messageId == id && reply.conversationId == cid && reply.conversationSeq == seqNo && reply.duplicate
  {
    hide SeqIndexed, Dense, IdsOrdered, StatusesSound, MembersBounded, Upserted, Enrolled, MembersOf;
  }
}
