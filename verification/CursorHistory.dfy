/**
 Receipts and cursors, read off what users have sent: when an acknowledgement counts and how it is
 answered, and that a member's cursors are the greatest numbers it has acknowledged.
 */
module CursorHistory {
  import opened Options
  import opened MessageTables
  import opened Accept
  import opened Receipts
  import opened MessageCore

  // ---------------------------------------------------------------- when a receipt counts

  /** The receipt names a message by its id and its place in a conversation the user is a member of. */
  predicate NamesMessage(t: Tables, id: int, uid: int, cid: int, seqNo: int) {
    && id > 0 && uid > 0 && cid > 0 && seqNo > 0
    && id in t.log.messages && t.log.messages[id].conversationId == cid && t.log.messages[id].conversationSeq == seqNo
    && cid in t.conversations && (cid, uid) in t.members
  }

  /** A conversation receipt counts exactly for a message it names, of which a direct one must be the user's own. */
  lemma ConversationOutcome(t: Tables, id: int, uid: int, cid: int, seqNo: int, status: int, readTime: string)
    ensures var outcome := AckConversation(t, id, uid, cid, seqNo, status, readTime).1;
            var named := NamesMessage(t, id, uid, cid, seqNo);
            var foreign := named && t.conversations[cid].kind == Direct && t.log.messages[id].receiverId != uid;
            && (outcome == NotFound <==> !named) && (outcome == NotOwner <==> foreign)
            && (outcome == Updated <==> named && !foreign)
  {
    hide Receipted, CursorMoved;
  }

  /** The older receipt counts exactly for a message to the user. */
  lemma ReceiverOutcome(t: Tables, id: int, uid: int, status: int, readTime: string)
    ensures var outcome := AckReceiver(t, id, uid, status, readTime).1;
            && (outcome == NotFound <==> id !in t.log.messages)
            && (outcome == Updated <==> id in t.log.messages && t.log.messages[id].receiverId == uid)
            && outcome != DatabaseFailed
  {
  }

  /** Whether the transaction a receipt asks for finds its row. */
  ghost predicate Counts(t: Tables, r: AckRequest) {
    && r.messageId in t.log.messages
    && match r.cursor
       case Some((cid, seqNo)) =>
         && NamesMessage(t, r.messageId, r.uid, cid, seqNo)
         && (t.conversations[cid].kind == Direct ==> t.log.messages[r.messageId].receiverId == r.uid)
       case None => t.log.messages[r.messageId].receiverId == r.uid
  }

  lemma EffectCounts(t: Tables, r: AckRequest, now: Timestamp)
    requires StatusOf(r.receipt).Some?
    ensures AckEffect(t, r, now).1 == Updated <==> Counts(t, r)
  {
    hide AckConversation, AckReceiver, NamesMessage;
    var status, time := StatusOf(r.receipt).value, ReadTimeOf(r.receipt, now);
    match r.cursor
    case Some((cid, seqNo)) =>
      ConversationOutcome(t, r.messageId, r.uid, cid, seqNo, status, time);
      if NamesMessage(t, r.messageId, r.uid, cid, seqNo) {
        NamedIsStored(t, r.messageId, r.uid, cid, seqNo);
      }
    case None => ReceiverOutcome(t, r.messageId, r.uid, status, time);
  }

  lemma NamedIsStored(t: Tables, id: int, uid: int, cid: int, seqNo: int)
    requires NamesMessage(t, id, uid, cid, seqNo)
    ensures id in t.log.messages && cid in t.conversations
  {
  }

  /**
   How an acknowledgement is answered.  Transport receipts are always taken, and change nothing;
   delivered, read and untyped ones are taken when they count and the database answers; an untyped
   one is taken too when there is no such message.
   */
  lemma AckAnswer(t: Tables, r: AckRequest, now: Timestamp, fault: Fault)
    ensures var (u, reply) := Acknowledge(t, r, now, fault);
            var typed := r.receipt in {DeliveredReceipt, ReadReceipt};
            && (r.messageId <= 0 || r.receipt == OtherReceipt ==> u == t && reply == AckRefused(JsonParser))
            && (r.messageId > 0 && r.receipt == Transport ==> u == t && reply == AckAccepted)
            && (r.messageId > 0 && (typed || r.receipt == Unspecified) ==>
                  && (Counts(t, r) ==> (reply == AckAccepted <==> fault == NoFault))
                  && (!Counts(t, r) ==> u == t)
                  && (!Counts(t, r) && typed ==> reply == AckRefused(MessageOwnershipInvalid)))
            && (r.messageId > 0 && r.receipt == Unspecified && r.messageId !in t.log.messages ==> reply == AckAccepted)
  {
    hide Counts;
    if StatusOf(r.receipt).Some? {
      EffectCounts(t, r, now);
    }
    if r.messageId !in t.log.messages && r.receipt == Unspecified {
      MissingIsNotFound(t, r, now);
    }
    hide AckEffect;
  }

  lemma MissingIsNotFound(t: Tables, r: AckRequest, now: Timestamp)
    requires r.messageId !in t.log.messages && r.receipt == Unspecified
    ensures AckEffect(t, r, now).1 == NotFound && !Counts(t, r)
  {
  }

  // ---------------------------------------------------------------- moves

  /** A member reports that it has, or has read, everything up to a number. */
  datatype Move = Move(seqNo: int, read: bool)

  /** The event moves the cursors of member `k`, if its transaction commits. */
  ghost function MoveAt(t: Tables, e: Event, k: (int, int)): Option<Move> {
    match e
    case Ack(r, _, fault) =>
      if r.messageId > 0 && fault != RolledBack && r.receipt in {Unspecified, DeliveredReceipt, ReadReceipt}
         && r.cursor.Some? && (r.cursor.value.0, r.uid) == k && Counts(t, r)
      then Some(Move(r.cursor.value.1, r.receipt == ReadReceipt)) else None
    case AdvanceCursor(uid, cid, seqNo, read) =>
      if (cid, uid) == k && uid > 0 && cid > 0 && seqNo > 0 && k in t.members && cid in t.conversations
         && seqNo <= t.conversations[cid].latestSeq
      then Some(Move(seqNo, read)) else None
    case _ => None
  }

  /** The cursors after a move: the larger of old and new, the read cursor only if it was a read. */
  ghost predicate Moved(a: Member, b: Member, m: Option<Move>) {
    && b.joinedSeq == a.joinedSeq && b.leftSeq == a.leftSeq
    && b.deliveredSeq >= a.deliveredSeq && b.readSeq >= a.readSeq
    && (m.None? ==> b == a)
    && (m.Some? ==> b.deliveredSeq >= m.value.seqNo && b.deliveredSeq in {a.deliveredSeq, m.value.seqNo})
    && (m.Some? && m.value.read ==> b.readSeq >= m.value.seqNo && b.readSeq in {a.readSeq, m.value.seqNo})
    && (m.Some? && !m.value.read ==> b.readSeq == a.readSeq)
  }

  lemma AckConversationMoves(t: Tables, id: int, uid: int, cid: int, seqNo: int, status: int, readTime: string, k: (int, int))
    requires k in t.members
    ensures var (u, outcome) := AckConversation(t, id, uid, cid, seqNo, status, readTime);
            && k in u.members && u.members.Keys == t.members.Keys
            && Moved(t.members[k], u.members[k], if outcome == Updated && (cid, uid) == k then Some(Move(seqNo, status == READ)) else None)
  {
    hide Receipted;
  }

  lemma AckMoves(t: Tables, r: AckRequest, now: Timestamp, fault: Fault, k: (int, int))
    requires k in t.members
    ensures var u := Acknowledge(t, r, now, fault).0;
            && k in u.members && u.members.Keys == t.members.Keys
            && Moved(t.members[k], u.members[k], MoveAt(t, Ack(r, now, fault), k))
  {
    hide AckConversation, AckReceiver, Counts;
    if StatusOf(r.receipt).Some? {
      EffectCounts(t, r, now);
      match r.cursor
      case Some((cid, seqNo)) =>
        AckConversationMoves(t, r.messageId, r.uid, cid, seqNo, StatusOf(r.receipt).value, ReadTimeOf(r.receipt, now), k);
      case None => ReceiverKeepsMembers(t, r.messageId, r.uid, StatusOf(r.receipt).value, ReadTimeOf(r.receipt, now));
    }
  }

  lemma ReceiverKeepsMembers(t: Tables, id: int, uid: int, status: int, readTime: string)
    ensures AckReceiver(t, id, uid, status, readTime).0.members == t.members
  {
  }

  lemma AdvanceMoves(t: Tables, uid: int, cid: int, seqNo: int, read: bool, k: (int, int))
    requires k in t.members
    ensures var u := CursorAdvanced(t, uid, cid, seqNo, read);
            && k in u.members && u.members.Keys == t.members.Keys
            && Moved(t.members[k], u.members[k], MoveAt(t, AdvanceCursor(uid, cid, seqNo, read), k))
  {
  }

  /** A text leaves the members there are alone, and enrols new ones with nothing acknowledged. */
  lemma ExecuteKeepsMembers(t: Tables, c: Command, time: string, gap: nat, fault: Fault, k: (int, int))
    requires Inv(t)
    ensures var u := Execute(t, c, time, gap, fault).0;
            && (k in t.members ==> k in u.members && u.members[k] == t.members[k])
            && (k in u.members && k !in t.members ==> u.members[k].deliveredSeq == 0 && u.members[k].readSeq == 0)
  {
    hide LogInv, MembersBounded, BusinessKeys, Upserted, RouteOf, RecipientsOf;
  }

  /** Every event moves a member's cursors by its own report and not otherwise. */
  lemma StepMoves(t: Tables, e: Event, k: (int, int))
    requires Inv(t)
    ensures var u := Step(t, e);
            && (k in t.members ==> k in u.members && Moved(t.members[k], u.members[k], MoveAt(t, e, k)))
            && (k in u.members && k !in t.members ==>
                  u.members[k].deliveredSeq == 0 && u.members[k].readSeq == 0)
  {
    hide Inv, Execute, Acknowledge, CursorAdvanced, Counts, CommandOf;
    match e
    case Send(r, time, gap, fault) =>
      if CommandOf(r).Some? {
        ExecuteKeepsMembers(t, CommandOf(r).value, time, gap, fault, k);
      }
    case Ack(r, now, fault) =>
      if k in t.members {
        AckMoves(t, r, now, fault, k);
      } else {
        AckAddsNoMember(t, r, now, fault);
      }
    case AdvanceCursor(uid, cid, seqNo, read) =>
      if k in t.members {
        AdvanceMoves(t, uid, cid, seqNo, read, k);
      } else {
        AdvanceAddsNoMember(t, uid, cid, seqNo, read);
      }
    case _ =>
  }

  lemma AckAddsNoMember(t: Tables, r: AckRequest, now: Timestamp, fault: Fault)
    ensures Acknowledge(t, r, now, fault).0.members.Keys == t.members.Keys
  {
    hide Receipted, CursorMoved;
  }

  lemma AdvanceAddsNoMember(t: Tables, uid: int, cid: int, seqNo: int, read: bool)
    ensures CursorAdvanced(t, uid, cid, seqNo, read).members.Keys == t.members.Keys
  {
    hide CursorMoved;
  }

  // ---------------------------------------------------------------- the history of a member

  ghost function MovesOf(es: seq<Event>, n: nat, k: (int, int)): seq<Move>
    requires n <= |es|
  {
    if n == 0 then []
    else
      var before := MovesOf(es, n - 1, k);
      match MoveAt(StateAt(EmptyTables(), es, n - 1), es[n - 1], k)
      case Some(m) => before + [m]
      case None => before
  }

  /** `value` is the greatest of the numbers reported, or 0 without any; `onlyRead` restricts it to reads. */
  ghost predicate Greatest(value: int, moves: seq<Move>, onlyRead: bool) {
    && value >= 0
    && (forall i :: 0 <= i < |moves| && (onlyRead ==> moves[i].read) ==> moves[i].seqNo <= value)
    && (value > 0 ==> exists i :: 0 <= i < |moves| && (onlyRead ==> moves[i].read) && moves[i].seqNo == value)
  }

  lemma GreatestAppend(value: int, later: int, moves: seq<Move>, m: Move, onlyRead: bool)
    requires Greatest(value, moves, onlyRead)
    requires if onlyRead && !m.read then later == value else later >= value && later >= m.seqNo && later in {value, m.seqNo}
    ensures Greatest(later, moves + [m], onlyRead)
  {
    var all := moves + [m];
    assert all[|moves|] == m;
    if later > 0 {
      if later == value {
        var i :| 0 <= i < |moves| && (onlyRead ==> moves[i].read) && moves[i].seqNo == value;
        assert all[i] == moves[i];
      }
    }
  }

  ghost predicate CursorsExplained(m: Member, moves: seq<Move>) {
    Greatest(m.deliveredSeq, moves, false) && Greatest(m.readSeq, moves, true)
  }

  lemma MovedExplained(a: Member, b: Member, moves: seq<Move>, m: Option<Move>)
    requires CursorsExplained(a, moves) && Moved(a, b, m)
    ensures CursorsExplained(b, if m.Some? then moves + [m.value] else moves)
  {
    hide Greatest;
    if m.Some? {
      GreatestAppend(a.deliveredSeq, b.deliveredSeq, moves, m.value, false);
      GreatestAppend(a.readSeq, b.readSeq, moves, m.value, true);
    }
  }

  lemma {:induction false} NoMovesBeforeMember(es: seq<Event>, n: nat, k: (int, int))
    requires n <= |es| && k !in StateAt(EmptyTables(), es, n).members
    ensures MovesOf(es, n, k) == []
  {
    hide Inv, Step, MoveAt;
    if n > 0 {
      var t, e := StateAt(EmptyTables(), es, n - 1), es[n - 1];
      assert StateAt(EmptyTables(), es, n) == Step(t, e);
      StepMoves(t, e, k);
      NoMovesBeforeMember(es, n - 1, k);
      if MoveAt(t, e, k).Some? {
        MoveNeedsMember(t, e, k);
      }
    }
  }

  lemma MoveNeedsMember(t: Tables, e: Event, k: (int, int))
    requires MoveAt(t, e, k).Some?
    ensures k in t.members
  {
  }

  /**
   In every reachable state a member's delivered cursor is the greatest number it has acknowledged
   in any way, its read cursor the greatest it has reported as read, and 0 without any report.
   */
  lemma {:induction false} CursorsAreGreatest(es: seq<Event>, n: nat, k: (int, int))
    requires n <= |es| && k in StateAt(EmptyTables(), es, n).members
    ensures CursorsExplained(StateAt(EmptyTables(), es, n).members[k], MovesOf(es, n, k))
  {
    hide Inv, Step, MoveAt, CursorsExplained, Moved;
    assert n > 0;
    var t, e := StateAt(EmptyTables(), es, n - 1), es[n - 1];
    var u := StateAt(EmptyTables(), es, n);
    assert u == Step(t, e);
    StepMoves(t, e, k);
    if k in t.members {
      CursorsAreGreatest(es, n - 1, k);
      MovedExplained(t.members[k], u.members[k], MovesOf(es, n - 1, k), MoveAt(t, e, k));
    } else {
      NoMovesBeforeMember(es, n - 1, k);
      if MoveAt(t, e, k).Some? {
        MoveNeedsMember(t, e, k);
      }
      StartsUnmoved(u.members[k]);
    }
  }

  lemma StartsUnmoved(m: Member)
    requires m.deliveredSeq == 0 && m.readSeq == 0
    ensures CursorsExplained(m, [])
  {
  }
}
