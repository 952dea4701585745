/**
 Receipts: acknowledging a message advances its status and the member's cursors.  The
 conversation-aware path and the older receiver-only path end in the same rewrite of the row.
 */
module Receipts {
  import opened Options
  import opened MessageTables
  import opened Accept

  type Timestamp = s: string | s != "" witness "0"

  datatype Outcome = NotFound | NotOwner | Updated | DatabaseFailed    // 0, -2, 1, -1

  datatype ReceiptType = Unspecified | Transport | DeliveredReceipt | ReadReceipt | OtherReceipt

  datatype AckRequest = AckRequest(messageId: int, uid: int, receipt: ReceiptType, cursor: Option<(int, int)>)

  datatype AckReply = AckAccepted | AckRefused(error: Error)

  function Max(a: int, b: int): int { if a < b then b else a }

  /** GREATEST on the status; the read time of the first READ is kept. */
  function Receipted(m: Message, status: int, readTime: string): Message {
    m.(status := Max(m.status, status),
       readDateTime := if status == READ && (m.status < READ || m.readDateTime == "") then readTime else m.readDateTime)
  }

  function CursorMoved(m: Member, seqNo: nat, read: bool): Member {
    m.(deliveredSeq := Max(m.deliveredSeq, seqNo), readSeq := if read then Max(m.readSeq, seqNo) else m.readSeq)
  }

  function Rewritten(l: Log, id: int, m: Message): Log { l.(messages := l.messages[id := m]) }

  /** acknowledgeConversationMessage, as one committed transaction. */
  function AckConversation(t: Tables, id: int, uid: int, cid: int, seqNo: int, status: int, readTime: string)
    : (Tables, Outcome)
  {
    if id <= 0 || uid <= 0 || cid <= 0 || seqNo <= 0 then (t, NotFound)
    else if id !in t.log.messages || SeqKey(t.log.messages[id]) != (cid, seqNo) || cid !in t.conversations
            || (cid, uid) !in t.members then (t, NotFound)
    else
      var m, direct := t.log.messages[id], t.conversations[cid].kind == Direct;
      if direct && m.receiverId != uid then (t, NotOwner)
      else
        (t.(log := if direct then Rewritten(t.log, id, Receipted(m, status, readTime)) else t.log,
            members := t.members[(cid, uid) := CursorMoved(t.members[(cid, uid)], seqNo, status == READ)]), Updated)
  }

  /** updateMessageForReceiver: the path of clients that send no conversation cursor. */
  function AckReceiver(t: Tables, id: int, uid: int, status: int, readTime: string): (Tables, Outcome) {
    if id !in t.log.messages then (t, NotFound)
    else
      var m := t.log.messages[id];
      if m.receiverId != uid then (t, NotOwner)
      else
        var first := m.status < status || m.readDateTime == "";
        var m' := m.(status := Max(m.status, status),
                     readDateTime := if readTime != "" && first then readTime else m.readDateTime);
        (t.(log := Rewritten(t.log, id, m')), Updated)
  }

  /** advanceConversationCursor. */
  function CursorAdvanced(t: Tables, uid: int, cid: int, seqNo: int, read: bool): Tables {
    if uid <= 0 || cid <= 0 || seqNo <= 0 || (cid, uid) !in t.members || cid !in t.conversations
       || t.conversations[cid].latestSeq < seqNo then t
    else t.(members := t.members[(cid, uid) := CursorMoved(t.members[(cid, uid)], seqNo, read)])
  }

  /** The status a receipt asks for; a receipt without a type counts as DELIVERED. */
  function StatusOf(r: ReceiptType): Option<int> {
    match r
    case Unspecified => Some(DELIVERED)
    case DeliveredReceipt => Some(DELIVERED)
    case ReadReceipt => Some(READ)
    case Transport => None
    case OtherReceipt => None
  }

  function ReadTimeOf(r: ReceiptType, now: Timestamp): string { if r == ReadReceipt then now else "" }

  /** The transaction an acknowledgement runs, if it runs one. */
  function AckEffect(t: Tables, r: AckRequest, now: Timestamp): (Tables, Outcome)
    requires StatusOf(r.receipt).Some?
  {
    var status, readTime := StatusOf(r.receipt).value, ReadTimeOf(r.receipt, now);
    match r.cursor
    case Some((cid, seqNo)) => AckConversation(t, r.messageId, r.uid, cid, seqNo, status, readTime)
    case None => AckReceiver(t, r.messageId, r.uid, status, readTime)
  }

  function Acknowledge(t: Tables, r: AckRequest, now: Timestamp, fault: Fault): (Tables, AckReply) {
    if r.messageId <= 0 then (t, AckRefused(JsonParser))
    else if r.receipt == Transport then (t, AckAccepted)
    else if StatusOf(r.receipt).None? then (t, AckRefused(JsonParser))
    else
      var (u, outcome) := AckEffect(t, r, now);
      if outcome != Updated then
        (t, if outcome == NotFound && r.receipt == Unspecified then AckAccepted else AckRefused(MessageOwnershipInvalid))
      else
        match fault
        case NoFault => (u, AckAccepted)
        case RolledBack => (t, AckRefused(MysqlFailed))
        case ReplyLost => (u, AckRefused(MysqlFailed))
  }

  // ---------------------------------------------------------------- one receipt

  /** Rewriting status and read time touches no index, no order and no sequence number. */
  lemma RewriteKeepsIndexes(l: Log, id: int, m: Message)
    requires ClientIndexed(l.messages, l.byClient) && SeqIndexed(l.messages, l.bySeq)
    requires id in l.messages && MessageGrows(l.messages[id], m)
    ensures var r := Rewritten(l, id, m); ClientIndexed(r.messages, r.byClient) && SeqIndexed(r.messages, r.bySeq)
  {
    FixedColumns(l.messages[id], m);
  }

  lemma FixedColumns(a: Message, b: Message)
    requires MessageGrows(a, b)
    ensures ClientKey(a) == ClientKey(b) && SeqKey(a) == SeqKey(b) && a.receiverId == b.receiverId
  {
    assert ClientKey(Fixed(a)) == ClientKey(Fixed(b)) && SeqKey(Fixed(a)) == SeqKey(Fixed(b));
    assert Fixed(a).receiverId == Fixed(b).receiverId;
  }

  lemma RewriteKeepsLog(l: Log, convs: Conversations, id: int, m: Message)
    requires LogInv(l, convs) && id in l.messages && MessageGrows(l.messages[id], m) && StatusSound(m)
    ensures LogInv(Rewritten(l, id, m), convs) && LogGrows(l, Rewritten(l, id, m))
  {
    RewriteKeepsIndexes(l, id, m);
    FixedColumns(l.messages[id], m);
    hide ClientIndexed, SeqIndexed, Dense;
  }

  lemma ReceiptedGrows(m: Message, status: int, readTime: string)
    requires StatusSound(m) && DELIVERED <= status <= READ && (status == READ <==> readTime != "")
    ensures MessageGrows(m, Receipted(m, status, readTime)) && StatusSound(Receipted(m, status, readTime))
  {
  }

  lemma ReceiptedKeepsColumns(m: Message, status: int, readTime: string)
    ensures var r := Receipted(m, status, readTime); SeqKey(r) == SeqKey(m) && r.receiverId == m.receiverId
  {
  }

  /** The older path rewrites a sound row exactly as the conversation path does. */
  lemma LegacyReceiptAgrees(t: Tables, id: int, uid: int, status: int, readTime: string)
    requires id in t.log.messages && StatusSound(t.log.messages[id]) && t.log.messages[id].receiverId == uid
    requires DELIVERED <= status <= READ && (status == READ <==> readTime != "")
    ensures AckReceiver(t, id, uid, status, readTime).0
            == t.(log := Rewritten(t.log, id, Receipted(t.log.messages[id], status, readTime)))
  {
  }

  lemma CursorKeeps(members: Members, convs: Conversations, k: (int, int), seqNo: nat, read: bool)
    requires MembersBounded(members, convs) && k in members && seqNo <= convs[k.0].latestSeq
    ensures var moved := members[k := CursorMoved(members[k], seqNo, read)];
            MembersBounded(moved, convs) && MembersGrow(members, moved)
  {
  }

  lemma CursorAdvancedKeepsInv(t: Tables, uid: int, cid: int, seqNo: int, read: bool)
    requires Inv(t)
    ensures var u := CursorAdvanced(t, uid, cid, seqNo, read); Inv(u) && Grows(t, u)
  {
    GrowsReflexive(t);
    hide LogInv, MembersBounded, BusinessKeys, LogGrows, ConversationsGrow, MembersGrow;
    if CursorAdvanced(t, uid, cid, seqNo, read) != t {
      CursorKeeps(t.members, t.conversations, (cid, uid), seqNo, read);
    }
  }

  /** A row named by its position in the log lies inside the log. */
  lemma SeqInsideLog(t: Tables, id: int)
    requires Inv(t) && id in t.log.messages
    ensures var m := t.log.messages[id];
            StatusSound(m) && m.conversationId in t.conversations
            && 1 <= m.conversationSeq <= t.conversations[m.conversationId].latestSeq
  {
    assert SeqKey(t.log.messages[id]) in t.log.bySeq;
  }

  lemma AckEffectKeepsInv(t: Tables, r: AckRequest, now: Timestamp)
    requires Inv(t) && StatusOf(r.receipt).Some?
    ensures var u := AckEffect(t, r, now).0; Inv(u) && Grows(t, u)
  {
    hide LogInv, MembersBounded, BusinessKeys, LogGrows, ConversationsGrow, MembersGrow;
    GrowsReflexive(t);
    if AckEffect(t, r, now).1 == Updated {
      var id, m, status, readTime := r.messageId, t.log.messages[r.messageId], StatusOf(r.receipt).value, ReadTimeOf(r.receipt, now);
      SeqInsideLog(t, id);
      ReceiptedGrows(m, status, readTime);
      RewriteKeepsLog(t.log, t.conversations, id, Receipted(m, status, readTime));
      match r.cursor
      case None => LegacyReceiptAgrees(t, id, r.uid, status, readTime);
      case Some((cid, seqNo)) => CursorKeeps(t.members, t.conversations, (cid, r.uid), seqNo, status == READ);
    }
  }

  lemma AcknowledgeKeepsInv(t: Tables, r: AckRequest, now: Timestamp, fault: Fault)
    requires Inv(t)
    ensures var u := Acknowledge(t, r, now, fault).0; Inv(u) && Grows(t, u)
  {
    GrowsReflexive(t);
    hide Inv, Grows, AckEffect;
    if StatusOf(r.receipt).Some? {
      AckEffectKeepsInv(t, r, now);
    }
  }

  // ---------------------------------------------------------------- receiving it again

  /** A row that has grown past a receipt is a fixed point of that receipt, whatever the clock says. */
  lemma ReceiptAbsorbed(m: Message, n: Message, status: int, readTime: string, again: string)
    requires StatusSound(n) && MessageGrows(Receipted(m, status, readTime), n)
    ensures Receipted(n, status, again) == n
  {
  }

  lemma CursorAbsorbed(a: Member, b: Member, seqNo: nat, read: bool)
    requires MemberGrows(CursorMoved(a, seqNo, read), b)
    ensures CursorMoved(b, seqNo, read) == b
  {
  }

  lemma RewriteWithItself(l: Log, id: int)
    requires id in l.messages
    ensures Rewritten(l, id, l.messages[id]) == l
  {
    assert l.messages[id := l.messages[id]] == l.messages;
  }

  lemma LegacyReplayChangesNothing(t: Tables, id: int, uid: int, status: int, readTime: string, later: Tables, again: string)
    requires Inv(t) && Inv(later) && AckReceiver(t, id, uid, status, readTime).1 == Updated
    requires Grows(AckReceiver(t, id, uid, status, readTime).0, later)
    requires DELIVERED <= status <= READ && (status == READ <==> readTime != "") && (status == READ <==> again != "")
    ensures AckReceiver(later, id, uid, status, again) == (later, Updated)
  {
    var m := t.log.messages[id];
    SeqInsideLog(t, id);
    LegacyReceiptAgrees(t, id, uid, status, readTime);
    hide Inv, Grows;
    GrowsAt(AckReceiver(t, id, uid, status, readTime).0, later, id, 0, (0, 0));
    SeqInsideLog(later, id);
    var n := later.log.messages[id];
    FixedColumns(Receipted(m, status, readTime), n);
    ReceiptAbsorbed(m, n, status, readTime, again);
    LegacyReceiptAgrees(later, id, uid, status, again);
    RewriteWithItself(later.log, id);
  }

  /** A receipt whose row and cursor it no longer moves leaves the tables as they are. */
  lemma AckFixpoint(t: Tables, id: int, uid: int, cid: int, seqNo: nat, status: int, readTime: string)
    requires id > 0 && uid > 0 && cid > 0 && seqNo > 0
    requires id in t.log.messages && SeqKey(t.log.messages[id]) == (cid, seqNo)
    requires cid in t.conversations && (cid, uid) in t.members
    requires t.conversations[cid].kind == Direct ==>
               t.log.messages[id].receiverId == uid && Receipted(t.log.messages[id], status, readTime) == t.log.messages[id]
    requires CursorMoved(t.members[(cid, uid)], seqNo, status == READ) == t.members[(cid, uid)]
    ensures AckConversation(t, id, uid, cid, seqNo, status, readTime) == (t, Updated)
  {
    RewriteWithItself(t.log, id);
    assert t.members[(cid, uid) := t.members[(cid, uid)]] == t.members;
  }

  lemma ConversationReplayChangesNothing(
    t: Tables, id: int, uid: int, cid: int, seqNo: int, status: int, readTime: string, later: Tables, again: string)
    requires Inv(t) && Inv(later) && AckConversation(t, id, uid, cid, seqNo, status, readTime).1 == Updated
    requires Grows(AckConversation(t, id, uid, cid, seqNo, status, readTime).0, later)
    ensures AckConversation(later, id, uid, cid, seqNo, status, again) == (later, Updated)
  {
    hide Inv, Grows, CursorMoved, Receipted;
    var u := AckConversation(t, id, uid, cid, seqNo, status, readTime).0;
    var m, k := t.log.messages[id], (cid, uid);
    ReceiptedKeepsColumns(m, status, readTime);
    GrowsAt(u, later, id, cid, k);
    SeqInsideLog(later, id);
    FixedColumns(u.log.messages[id], later.log.messages[id]);
    CursorAbsorbed(t.members[k], later.members[k], seqNo, status == READ);
    if t.conversations[cid].kind == Direct {
      ReceiptAbsorbed(m, later.log.messages[id], status, readTime, again);
    }
    AckFixpoint(later, id, uid, cid, seqNo, status, again);
  }

  /**
   Acknowledging again, at any later time and with any clock, changes nothing: the status, the
   first read time and the cursors already include the receipt.
   */
  lemma AckReplayChangesNothing(t: Tables, r: AckRequest, now: Timestamp, later: Tables, again: Timestamp)
    requires Inv(t) && Inv(later) && StatusOf(r.receipt).Some? && AckEffect(t, r, now).1 == Updated
    requires Grows(AckEffect(t, r, now).0, later)
    ensures AckEffect(later, r, again) == (later, Updated)
  {
    hide Inv, Grows, AckReceiver, AckConversation;
    var status := StatusOf(r.receipt).value;
    match r.cursor
    case None =>
      LegacyReplayChangesNothing(t, r.messageId, r.uid, status, ReadTimeOf(r.receipt, now), later, ReadTimeOf(r.receipt, again));
    case Some((cid, seqNo)) =>
      ConversationReplayChangesNothing(
        t, r.messageId, r.uid, cid, seqNo, status, ReadTimeOf(r.receipt, now), later, ReadTimeOf(r.receipt, again));
  }
}
