/**
 The client's database: messages with three uniqueness rules, an outbox of messages that still
 need an answer, and one sync cursor per conversation.  Every operation is one transaction;
 `fault` stands for any failure that rolls it back.
 */
module ClientStore {
  import opened Options

  datatype Delivery =
    PendingLocal | WaitingAccept | Accepted | Delivered | Read | Unknown | RetryableFailed | PermanentFailed

  /** Nothing more is owed to the server. */
  predicate Settled(d: Delivery) {
    d in {Accepted, Delivered, Read, PermanentFailed}
  }

  predicate CanTransition(from: Delivery, to: Delivery) {
    match from
    case PendingLocal => to in {WaitingAccept, Unknown, RetryableFailed, PermanentFailed}
    case WaitingAccept => to in {Accepted, Unknown, RetryableFailed, PermanentFailed}
    case Accepted => to in {Delivered, Read}
    case Delivered => to == Read
    case Unknown => to in {WaitingAccept, Accepted, Delivered, Read, RetryableFailed, PermanentFailed}
    case RetryableFailed => to in {PendingLocal, WaitingAccept, Accepted, PermanentFailed}
    case Read => false
    case PermanentFailed => false
  }

  /** A conversation is a chat with a user, a group, or local only. */
  datatype Conversation = Direct(peer: int) | Group(gid: int) | LocalOnly(name: string)

  datatype Row = Row(conversation: Conversation, messageId: Option<int>, seqNo: Option<int>, body: string,
                     outgoing: bool, delivery: Delivery)

  /** A record offered for insertion, under its client message id. */
  datatype Record = Record(clientId: int, row: Row)

  type Rows = map<int, Row>

  datatype Store = Store(messages: Rows, outbox: set<int>, cursors: map<Conversation, int>)

  const BLANK := Store(map[], {}, map[])

  // ---------------------------------------------------------------- the uniqueness rules

  /** The rows clash on the server id or on the place in a conversation; absent values never clash. */
  predicate Clash(a: Row, b: Row) {
    || (a.messageId.Some? && a.messageId == b.messageId)
    || (a.seqNo.Some? && a.seqNo == b.seqNo && a.conversation == b.conversation)
  }

  predicate Fits(rows: Rows, r: Record) {
    r.clientId !in rows && forall c :: c in rows ==> !Clash(rows[c], r.row)
  }

  ghost predicate Unique(rows: Rows) {
    forall a, b :: a in rows && b in rows && a != b ==> !Clash(rows[a], rows[b])
  }

  /** Insert that ignores a record breaking a rule. */
  function Offered(rows: Rows, r: Record): Rows {
    if Fits(rows, r) then rows[r.clientId := r.row] else rows
  }

  function OfferedAll(rows: Rows, batch: seq<Record>): Rows
    decreases |batch|
  {
    if batch == [] then rows else Offered(OfferedAll(rows, batch[..|batch| - 1]), batch[|batch| - 1])
  }

  function SyncCursor(s: Store, conversation: Conversation): int {
    if conversation in s.cursors then s.cursors[conversation] else 0
  }

  // ---------------------------------------------------------------- transactions

  function EnqueueOutgoing(s: Store, r: Record, fault: bool): (Store, bool) {
    if fault || !Fits(s.messages, r) || r.clientId in s.outbox then (s, false)
    else (s.(messages := s.messages[r.clientId := r.row], outbox := s.outbox + {r.clientId}), true)
  }

  function UpdateDeliveryState(s: Store, clientId: int, d: Delivery, fault: bool): (Store, bool) {
    if fault then (s, false)
    else
      (s.(messages := if clientId in s.messages then s.messages[clientId := s.messages[clientId].(delivery := d)]
                      else s.messages,
          outbox := if Settled(d) then s.outbox - {clientId} else s.outbox), true)
  }

  /** The row an acceptance writes; it must not clash with any other row. */
  predicate MayAccept(s: Store, clientId: int, messageId: int, seqNo: int) {
    clientId in s.messages ==>
      var row := s.messages[clientId].(messageId := Some(messageId), seqNo := Some(seqNo));
      forall c :: c in s.messages && c != clientId ==> !Clash(s.messages[c], row)
  }

  function AcceptOutgoing(s: Store, clientId: int, messageId: int, conversation: Conversation, seqNo: int, fault: bool)
    : (Store, bool)
  {
    if fault || !MayAccept(s, clientId, messageId, seqNo) then (s, false)
    else
      var messages :=
        if clientId !in s.messages then s.messages
        else s.messages[clientId := s.messages[clientId].(messageId := Some(messageId), seqNo := Some(seqNo),
                                                          delivery := Accepted)];
      var cursor := if conversation in s.cursors && s.cursors[conversation] > seqNo then s.cursors[conversation]
                    else seqNo;
      (Store(messages, s.outbox - {clientId}, s.cursors[conversation := cursor]), true)
  }

  function ApplyIncomingBatch(s: Store, conversation: Conversation, batch: seq<Record>, next: int, fault: bool)
    : (Store, bool)
  {
    if fault then (s, false)
    else
      (s.(messages := OfferedAll(s.messages, batch),
          cursors := if conversation in s.cursors && next < s.cursors[conversation] then s.cursors
                     else s.cursors[conversation := next]), true)
  }

  // ---------------------------------------------------------------- what the transactions keep

  /** An outbox row for exactly the outgoing messages that are not settled. */
  ghost predicate OutboxExact(s: Store) {
    forall c :: c in s.outbox <==> c in s.messages && s.messages[c].outgoing && !Settled(s.messages[c].delivery)
  }

  ghost predicate Inv(s: Store) {
    Unique(s.messages) && OutboxExact(s)
  }

  /** Incoming records carry the server's word: they are settled. */
  predicate Incoming(batch: seq<Record>) {
    forall i :: 0 <= i < |batch| ==> Settled(batch[i].row.delivery)
  }

  lemma EnqueueKeepsInv(s: Store, r: Record, fault: bool)
    requires Inv(s) && r.row.outgoing && !Settled(r.row.delivery)
    ensures Inv(EnqueueOutgoing(s, r, fault).0)
  {
    hide Settled;
  }

  lemma UpdateKeepsInv(s: Store, clientId: int, d: Delivery, fault: bool)
    requires Inv(s)
    requires clientId in s.messages && Settled(s.messages[clientId].delivery) ==> Settled(d)
    ensures Inv(UpdateDeliveryState(s, clientId, d, fault).0)
  {
    hide Settled;
  }

  lemma AcceptKeepsInv(s: Store, clientId: int, messageId: int, conversation: Conversation, seqNo: int, fault: bool)
    requires Inv(s)
    ensures Inv(AcceptOutgoing(s, clientId, messageId, conversation, seqNo, fault).0)
  {
  }

  lemma OfferedKeepsInv(s: Store, r: Record)
    requires Inv(s) && Settled(r.row.delivery)
    ensures Inv(s.(messages := Offered(s.messages, r)))
  {
    hide Settled;
  }

  lemma {:induction false} BatchKeepsInv(s: Store, batch: seq<Record>)
    requires Inv(s) && Incoming(batch)
    ensures Inv(s.(messages := OfferedAll(s.messages, batch)))
    decreases |batch|
  {
    if batch != [] {
      var front := batch[..|batch| - 1];
      BatchKeepsInv(s, front);
      hide Inv, Offered, Settled;
      OfferedKeepsInv(s.(messages := OfferedAll(s.messages, front)), batch[|batch| - 1]);
    }
  }

  // ---------------------------------------------------------------- batches

  /** Rows stay, under their client id, and a server id or place once known stays with its row. */
  ghost predicate KeysKept(a: Rows, b: Rows) {
    forall c :: c in a ==>
      && c in b && a[c].conversation == b[c].conversation
      && (a[c].messageId.Some? ==> a[c].messageId == b[c].messageId)
      && (a[c].seqNo.Some? ==> a[c].seqNo == b[c].seqNo)
  }

  /** A record offered is stored exactly when no row has its client id, its server id or its place. */
  lemma OfferStoresIff(rows: Rows, r: Record)
    ensures var later := Offered(rows, r);
            var taken := exists c :: c in rows && (c == r.clientId
                           || (r.row.messageId.Some? && rows[c].messageId == r.row.messageId)
                           || (r.row.seqNo.Some? && rows[c].seqNo == r.row.seqNo && rows[c].conversation == r.row.conversation));
            later == if taken then rows else rows[r.clientId := r.row]
  {
  }

  /** A record that breaks a rule goes on breaking it. */
  lemma MisfitStays(a: Rows, b: Rows, r: Record)
    requires KeysKept(a, b) && !Fits(a, r)
    ensures !Fits(b, r)
  {
    if r.clientId !in a {
      var c :| c in a && Clash(a[c], r.row);
      assert Clash(b[c], r.row);
    }
  }

  lemma KeysKeptTransitive(a: Rows, b: Rows, c: Rows)
    requires KeysKept(a, b) && KeysKept(b, c)
    ensures KeysKept(a, c)
  {
  }

  lemma OfferedKeepsKeys(rows: Rows, r: Record)
    ensures KeysKept(rows, Offered(rows, r)) && !Fits(Offered(rows, r), r)
  {
  }

  /**
   A batch never touches a row that is there, adds only its own records, and leaves every record
   stored or in conflict with a stored row.
   */
  lemma {:induction false} BatchCovers(rows: Rows, batch: seq<Record>)
    ensures KeysKept(rows, OfferedAll(rows, batch))
    ensures forall i :: 0 <= i < |batch| ==> !Fits(OfferedAll(rows, batch), batch[i])
    ensures var later := OfferedAll(rows, batch);
            && (forall c :: c in rows ==> c in later && later[c] == rows[c])
            && (forall c :: c in later && c !in rows ==> Record(c, later[c]) in batch)
    decreases |batch|
  {
    if batch != [] {
      var front, last := batch[..|batch| - 1], batch[|batch| - 1];
      var middle, later := OfferedAll(rows, front), OfferedAll(rows, batch);
      BatchCovers(rows, front);
      OfferedKeepsKeys(middle, last);
      KeysKeptTransitive(rows, middle, later);
      forall i | 0 <= i < |batch|
        ensures !Fits(later, batch[i])
      {
        if i < |front| {
          assert front[i] == batch[i];
          MisfitStays(middle, later, batch[i]);
        }
      }
      hide KeysKept, Fits;
      assert batch == front + [last];
    } else {
      assert KeysKept(rows, rows);
    }
  }

  lemma {:induction false} MisfitsChangeNothing(rows: Rows, batch: seq<Record>)
    requires forall i :: 0 <= i < |batch| ==> !Fits(rows, batch[i])
    ensures OfferedAll(rows, batch) == rows
    decreases |batch|
  {
    if batch != [] {
      var front := batch[..|batch| - 1];
      assert forall i :: 0 <= i < |front| ==> front[i] == batch[i];
      MisfitsChangeNothing(rows, front);
    }
  }

  /** A batch applied again, at any later point that kept the keys, adds nothing. */
  lemma BatchAgainLater(rows: Rows, batch: seq<Record>, later: Rows)
    requires KeysKept(OfferedAll(rows, batch), later)
    ensures OfferedAll(later, batch) == later
  {
    BatchCovers(rows, batch);
    var once := OfferedAll(rows, batch);
    forall i | 0 <= i < |batch|
      ensures !Fits(later, batch[i])
    {
      MisfitStays(once, later, batch[i]);
    }
    hide KeysKept, Fits;
    MisfitsChangeNothing(later, batch);
  }

  /** A batch applied twice is the batch applied once, conflicts inside it included. */
  lemma BatchIdempotent(s: Store, conversation: Conversation, batch: seq<Record>, next: int)
    ensures var once := ApplyIncomingBatch(s, conversation, batch, next, false).0;
            ApplyIncomingBatch(once, conversation, batch, next, false) == (once, true)
  {
    var rows := OfferedAll(s.messages, batch);
    assert KeysKept(rows, rows);
    BatchAgainLater(s.messages, batch, rows);
    hide KeysKept, Fits, OfferedAll;
    var once := ApplyIncomingBatch(s, conversation, batch, next, false).0;
    assert once.cursors[conversation := once.cursors[conversation]] == once.cursors;
  }

  // ---------------------------------------------------------------- the cursor

  /** A batch moves a cursor back exactly when the conversation had none and the new one is negative. */
  lemma CursorNeverBackIff(s: Store, conversation: Conversation, batch: seq<Record>, next: int, other: Conversation)
    ensures var u := ApplyIncomingBatch(s, conversation, batch, next, false).0;
            var back := other == conversation && other !in s.cursors && next < 0;
            SyncCursor(u, other) < SyncCursor(s, other) <==> back
    ensures next >= 0 ==>
      var u := ApplyIncomingBatch(s, conversation, batch, next, false).0;
      && SyncCursor(u, conversation) >= next
      && (SyncCursor(u, conversation) == next || SyncCursor(u, conversation) == SyncCursor(s, conversation))
  {
  }

  /** An acceptance that is stored does so under the same condition, and otherwise takes the larger value. */
  lemma AcceptCursorBackIff(s: Store, clientId: int, messageId: int, conversation: Conversation, seqNo: int, fault: bool,
                            other: Conversation)
    ensures var (u, ok) := AcceptOutgoing(s, clientId, messageId, conversation, seqNo, fault);
            var back := ok && other == conversation && other !in s.cursors && seqNo < 0;
            && (SyncCursor(u, other) < SyncCursor(s, other) <==> back)
            && (ok ==> SyncCursor(u, conversation) >= seqNo)
            && (ok ==> SyncCursor(u, conversation) == seqNo || SyncCursor(u, conversation) == SyncCursor(s, conversation))
  {
    hide MayAccept;
  }

  // ---------------------------------------------------------------- acceptance that cannot be stored

  /** An acceptance is refused exactly when another row already has its server id or its place. */
  lemma AcceptBlockedIff(s: Store, clientId: int, messageId: int, conversation: Conversation, seqNo: int)
    requires clientId in s.messages
    ensures var (u, ok) := AcceptOutgoing(s, clientId, messageId, conversation, seqNo, false);
            && (!ok <==> exists c ::
                  && c in s.messages && c != clientId
                  && (s.messages[c].messageId == Some(messageId)
                      || (s.messages[c].seqNo == Some(seqNo) && s.messages[c].conversation == s.messages[clientId].conversation)))
            && (!ok ==> u == s)
            && (ok ==> clientId !in u.outbox && u.messages[clientId].messageId == Some(messageId)
                       && u.messages[clientId].delivery == Accepted)
  {
    if !MayAccept(s, clientId, messageId, seqNo) {
      var row := s.messages[clientId].(messageId := Some(messageId), seqNo := Some(seqNo));
      var c :| c in s.messages && c != clientId && Clash(s.messages[c], row);
    }
  }
}
