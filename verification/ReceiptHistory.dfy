/** A message's status and read time are a function of the receipts its receiver has sent. */
module ReceiptHistory {
  import opened Options
  import opened MessageTables
  import opened Accept
  import opened Receipts
  import opened MessageCore
  import opened Resends

  datatype Receipt = Receipt(status: int, time: string)

  /** The receipt an event records on a message row, if its transaction commits and reaches a row. */
  ghost function ReceiptAt(t: Tables, e: Event): Option<(int, Receipt)> {
    if !e.Ack? || e.ack.messageId <= 0 || StatusOf(e.ack.receipt).None? || e.ackFault == RolledBack then None
    else if AckEffect(t, e.ack, e.now).1 != Updated then None
    else if e.ack.cursor.Some? && t.conversations[e.ack.cursor.value.0].kind != Direct then None
    else Some((e.ack.messageId, Receipt(StatusOf(e.ack.receipt).value, ReadTimeOf(e.ack.receipt, e.now))))
  }

  /** The receipts recorded on message `id` by the first n events, oldest first. */
  ghost function ReceiptsOf(es: seq<Event>, n: nat, id: int): seq<Receipt>
    requires n <= |es|
  {
    if n == 0 then []
    else
      var before := ReceiptsOf(es, n - 1, id);
      match ReceiptAt(StateAt(EmptyTables(), es, n - 1), es[n - 1])
      case Some((to, r)) => if to == id then before + [r] else before
      case None => before
  }

  /** Only the receiver's receipts are recorded, and only on a message that exists. */
  lemma ReceiptFromReceiver(t: Tables, e: Event)
    requires ReceiptAt(t, e).Some?
    ensures var (id, r) := ReceiptAt(t, e).value;
            && id in t.log.messages && e.ack.uid == t.log.messages[id].receiverId
            && DELIVERED <= r.status <= READ && (r.status == READ <==> r.time != "")
  {
  }

  lemma ExecuteKeepsRow(t: Tables, c: Command, time: string, gap: nat, fault: Fault, id: int)
    requires Inv(t) && id in t.log.messages
    ensures var u := Execute(t, c, time, gap, fault).0; id in u.log.messages && u.log.messages[id] == t.log.messages[id]
  {
    hide SeqIndexed, Dense, MembersBounded, BusinessKeys, MembersOf, Upserted, Enrolled, StatusesSound, ClientIndexed;
  }

  lemma AckRewritesRow(t: Tables, e: Event, id: int)
    requires Inv(t) && id in t.log.messages && e.Ack?
    ensures var u := Acknowledge(t, e.ack, e.now, e.ackFault).0;
            && id in u.log.messages
            && u.log.messages[id] ==
               if ReceiptAt(t, e).Some? && ReceiptAt(t, e).value.0 == id
               then Receipted(t.log.messages[id], ReceiptAt(t, e).value.1.status, ReceiptAt(t, e).value.1.time)
               else t.log.messages[id]
  {
    hide Inv, Receipted, CursorMoved;
    if e.ack.cursor.None? && ReceiptAt(t, e).Some? {
      hide AckConversation;
      SeqInsideLog(t, e.ack.messageId);
      LegacyReceiptAgrees(t, e.ack.messageId, e.ack.uid, StatusOf(e.ack.receipt).value, ReadTimeOf(e.ack.receipt, e.now));
    }
  }

  lemma StepRewritesRow(t: Tables, e: Event, id: int)
    requires Inv(t) && id in t.log.messages
    ensures var u := Step(t, e);
            && id in u.log.messages
            && u.log.messages[id] ==
               if ReceiptAt(t, e).Some? && ReceiptAt(t, e).value.0 == id
               then Receipted(t.log.messages[id], ReceiptAt(t, e).value.1.status, ReceiptAt(t, e).value.1.time)
               else t.log.messages[id]
  {
    hide Inv, Execute, Acknowledge, Receipted, AckEffect;
    match e
    case Send(r, time, gap, fault) =>
      if CommandOf(r).Some? {
        ExecuteKeepsRow(t, CommandOf(r).value, time, gap, fault, id);
      }
    case Ack(_, _, _) => AckRewritesRow(t, e, id);
    case _ =>
  }

  lemma {:induction false} NoReceiptBeforeRow(es: seq<Event>, n: nat, id: int)
    requires n <= |es| && id !in StateAt(EmptyTables(), es, n).log.messages
    ensures ReceiptsOf(es, n, id) == []
    decreases n
  {
    hide Inv, Grows, Step, ReceiptAt;
    if n > 0 {
      var t := StateAt(EmptyTables(), es, n - 1);
      RunGrows(EmptyTables(), es, n - 1, n);
      GrowsAt(t, StateAt(EmptyTables(), es, n), id, 0, (0, 0));
      NoReceiptBeforeRow(es, n - 1, id);
      if ReceiptAt(t, es[n - 1]).Some? {
        ReceiptFromReceiver(t, es[n - 1]);
      }
    }
  }

  /**
   Status and read time told from the receipts alone: the status is the greatest of them, in
   whatever order they came, and the read time is that of the first READ.
   */
  ghost predicate Explained(m: Message, rs: seq<Receipt>) {
    && (rs == [] ==> m.status == WAIT)
    && (rs != [] ==> exists i :: 0 <= i < |rs| && rs[i].status == m.status)
    && (forall i :: 0 <= i < |rs| ==> rs[i].status <= m.status)
    && ((forall i :: 0 <= i < |rs| ==> rs[i].status != READ) ==> m.readDateTime == "")
    && (forall i :: 0 <= i < |rs| && FirstRead(rs, i) ==> m.readDateTime == rs[i].time)
  }

  ghost predicate FirstRead(rs: seq<Receipt>, i: nat)
    requires i < |rs|
  {
    rs[i].status == READ && forall j :: 0 <= j < i ==> rs[j].status != READ
  }

  ghost predicate SoundReceipts(rs: seq<Receipt>) {
    forall i :: 0 <= i < |rs| ==> DELIVERED <= rs[i].status <= READ && (rs[i].status == READ <==> rs[i].time != "")
  }

  lemma ExplainedStep(m: Message, rs: seq<Receipt>, r: Receipt)
    requires Explained(m, rs) && StatusSound(m) && SoundReceipts(rs + [r])
    ensures Explained(Receipted(m, r.status, r.time), rs + [r])
  {
    var m', rs' := Receipted(m, r.status, r.time), rs + [r];
    assert rs'[|rs|] == r;
    assert forall i :: 0 <= i < |rs| ==> rs'[i] == rs[i];
    if m.status < r.status || rs == [] {
      assert rs'[|rs|].status == m'.status;
    } else {
      var i :| 0 <= i < |rs| && rs[i].status == m.status;
      assert rs'[i].status == m'.status;
    }
    forall i | 0 <= i < |rs'| && FirstRead(rs', i)
      ensures m'.readDateTime == rs'[i].time
    {
      if i < |rs| {
        assert FirstRead(rs, i);
      } else {
        assert forall j :: 0 <= j < |rs| ==> rs'[j].status != READ;
      }
    }
  }

  /** In every reachable state every message row is explained by its receiver's receipts. */
  lemma {:induction false} StatusIsGreatestReceipt(es: seq<Event>, n: nat, id: int)
    requires n <= |es| && id in StateAt(EmptyTables(), es, n).log.messages
    ensures SoundReceipts(ReceiptsOf(es, n, id))
    ensures Explained(StateAt(EmptyTables(), es, n).log.messages[id], ReceiptsOf(es, n, id))
    decreases n
  {
    hide Inv, Grows, Step, ReceiptAt, Explained, Receipted;
    assert n > 0;
    var t, e := StateAt(EmptyTables(), es, n - 1), es[n - 1];
    if ReceiptAt(t, e).Some? {
      ReceiptFromReceiver(t, e);
    }
    if id in t.log.messages {
      StatusIsGreatestReceipt(es, n - 1, id);
      StepRewritesRow(t, e, id);
      SeqInsideLog(t, id);
      if ReceiptAt(t, e).Some? && ReceiptAt(t, e).value.0 == id {
        ExplainedStep(t.log.messages[id], ReceiptsOf(es, n - 1, id), ReceiptAt(t, e).value.1);
      }
    } else {
      NoReceiptBeforeRow(es, n - 1, id);
      NewRowIsSent(t, e, id);
      NewRowExplained(StateAt(EmptyTables(), es, n).log.messages[id]);
    }
  }

  lemma NewRowExplained(m: Message)
    requires m.status == WAIT && m.readDateTime == ""
    ensures Explained(m, [])
  {
  }
}
