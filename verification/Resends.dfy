/**
 What sending a command again does.  A gateway may repeat a command on another Message node and
 a client may repeat it after a restart, so each repetition must find the first one's effect.
 */
module Resends {
  import opened MessageTables
  import opened Accept
  import opened Receipts
  import opened MessageCore

  /** The command took effect at `t` (its answer may have been lost) and `later` is any state after that. */
  ghost predicate TookEffect(t: Tables, c: Command, time: string, gap: nat, later: Tables) {
    && Inv(t) && Inv(later)
    && Execute(t, c, time, gap, NoFault).1.Accepted?
    && Grows(Execute(t, c, time, gap, NoFault).0, later)
  }

  ghost predicate OnlyEnrols(t: Tables, u: Tables) {
    && u.log.(nextId := t.log.nextId) == t.log
    && u.conversations == t.conversations && u.byBusiness == t.byBusiness && u.social == t.social
    && (forall k :: k in t.members ==> k in u.members && u.members[k] == t.members[k])
  }

  lemma LostReplyTookEffect(t: Tables, c: Command, time: string, gap: nat)
    requires Inv(t)
    ensures Execute(t, c, time, gap, ReplyLost).0 == Execute(t, c, time, gap, NoFault).0
  {
    hide LogInv, MembersBounded, BusinessKeys, Prepared, Appended, MembersOf;
  }

  /** A routed resend either meets its own row or is refused; the conversation it names exists. */
  lemma ResendShape(t: Tables, c: Command, id: int, cid: int, seqNo: nat, time: string, gap: nat, fault: Fault)
    requires Inv(t) && StoredAs(t, c, id, cid, seqNo)
    ensures var (u, reply) := Execute(t, c, time, gap, fault);
            var r := RouteOf(t.social, c);
            if r.Routed? && r.conversationId == cid then
              u == (if fault == RolledBack then t.(log := t.log.(nextId := t.log.nextId + gap)) else Prepared(t, r))
            else u == t && reply.Failed?
  {
    hide SeqIndexed, Dense, IdsOrdered, StatusesSound, MembersBounded, BusinessKeys, Upserted, Enrolled, MembersOf;
  }

  lemma PreparedOnlyEnrols(t: Tables, r: Route)
    requires Inv(t) && r.Routed? && r.conversationId in t.conversations
    ensures OnlyEnrols(t, Prepared(t, r)) && Prepared(t, r).log == t.log
    ensures Prepared(t, r) == t <==> forall u :: u in r.audience ==> (r.conversationId, u) in t.members
  {
    hide LogInv, MembersBounded;
    var p := Prepared(t, r);
    if forall u :: u in r.audience ==> (r.conversationId, u) in t.members {
      assert p.members == t.members;
    } else {
      var u :| u in r.audience && (r.conversationId, u) !in t.members;
      assert (r.conversationId, u) in p.members;
    }
  }

  lemma StoredInConversation(t: Tables, c: Command, id: int, cid: int, seqNo: nat)
    requires Inv(t) && StoredAs(t, c, id, cid, seqNo)
    ensures cid in t.conversations
  {
    SeqInsideLog(t, id);
  }

  /**
   Sending a command again, at any later time, leaves every message row, sequence number,
   status, read time and cursor as it was, and never answers with another message.
   */
  lemma ResendSafe(
    t: Tables, c: Command, time: string, gap: nat, later: Tables, time2: string, gap2: nat, fault: Fault)
    requires TookEffect(t, c, time, gap, later)
    ensures var first := Execute(t, c, time, gap, NoFault).1;
            var (u, reply) := Execute(later, c, time2, gap2, fault);
            && OnlyEnrols(later, u)
            && (reply.Accepted? ==>
                  && reply.messageId == first.messageId && reply.conversationId == first.conversationId
                  && reply.conversationSeq == first.conversationSeq && !ShouldDeliver(reply))
  {
    hide Inv, Grows, Execute, StoredAs, Prepared;
    var first := Execute(t, c, time, gap, NoFault).1;
    AcceptedIsStored(t, c, time, gap, NoFault, later);
    StoredIsDuplicate(later, c, first.messageId, first.conversationId, first.conversationSeq, time2, gap2, fault);
    StoredInConversation(later, c, first.messageId, first.conversationId, first.conversationSeq);
    ResendShape(later, c, first.messageId, first.conversationId, first.conversationSeq, time2, gap2, fault);
    if RouteOf(later.social, c).Routed? && RouteOf(later.social, c).conversationId == first.conversationId {
      PreparedOnlyEnrols(later, RouteOf(later.social, c));
    }
  }

  /** A direct command sent again changes nothing at all. */
  lemma DirectResendChangesNothing(
    t: Tables, c: Command, time: string, gap: nat, later: Tables, time2: string, gap2: nat, fault: Fault)
    requires TookEffect(t, c, time, gap, later) && c.DirectText?
    ensures SameRows(later, Execute(later, c, time2, gap2, fault).0)
  {
    hide Inv, Grows, Execute, StoredAs, Prepared;
    var first := Execute(t, c, time, gap, NoFault).1;
    AcceptedIsStored(t, c, time, gap, NoFault, later);
    StoredInConversation(later, c, first.messageId, first.conversationId, first.conversationSeq);
    ResendShape(later, c, first.messageId, first.conversationId, first.conversationSeq, time2, gap2, fault);
    var r := RouteOf(later.social, c);
    if r.Routed? && r.conversationId == first.conversationId {
      ParticipantsStay(t, c, time, gap, later);
      PreparedOnlyEnrols(later, r);
    }
  }

  lemma ParticipantsStay(t: Tables, c: Command, time: string, gap: nat, later: Tables)
    requires TookEffect(t, c, time, gap, later) && c.DirectText?
    ensures var cid := Execute(t, c, time, gap, NoFault).1.conversationId;
            (cid, c.sender) in later.members && (cid, c.receiver) in later.members
  {
    var (u, reply) := Execute(t, c, time, gap, NoFault);
    var cid := reply.conversationId;
    ParticipantsEnrolled(t, c, time, gap);
    hide Inv, Grows, Execute;
    GrowsAt(u, later, 0, 0, (cid, c.sender));
    GrowsAt(u, later, 0, 0, (cid, c.receiver));
  }

  lemma ParticipantsEnrolled(t: Tables, c: Command, time: string, gap: nat)
    requires Inv(t) && c.DirectText? && Execute(t, c, time, gap, NoFault).1.Accepted?
    ensures var (u, reply) := Execute(t, c, time, gap, NoFault);
            (reply.conversationId, c.sender) in u.members && (reply.conversationId, c.receiver) in u.members
  {
    hide LogInv, MembersBounded, BusinessKeys, Upserted;
  }

  /**
   A group command sent again changes nothing exactly when everyone now in the group is already
   a member of the conversation; otherwise it enrols those who joined since.
   */
  lemma GroupResendChangesNothingIff(
    t: Tables, c: Command, time: string, gap: nat, later: Tables, time2: string, gap2: nat)
    requires TookEffect(t, c, time, gap, later) && c.GroupText?
    requires Execute(later, c, time2, gap2, NoFault).1.Accepted?
    ensures var cid := Execute(t, c, time, gap, NoFault).1.conversationId;
            SameRows(later, Execute(later, c, time2, gap2, NoFault).0)
            <==> forall u :: u in MembersOf(later.social, c.groupId) ==> (cid, u) in later.members
  {
    hide Inv, Grows, Execute, StoredAs, Prepared, MembersOf;
    var first := Execute(t, c, time, gap, NoFault).1;
    AcceptedIsStored(t, c, time, gap, NoFault, later);
    StoredInConversation(later, c, first.messageId, first.conversationId, first.conversationSeq);
    ResendShape(later, c, first.messageId, first.conversationId, first.conversationSeq, time2, gap2, NoFault);
    PreparedOnlyEnrols(later, RouteOf(later.social, c));
  }

  // ---------------------------------------------------------------- failed commands

  /** A commit would write something: a new row, or members who joined since the row was written. */
  ghost predicate WouldWrite(t: Tables, c: Command)
    requires Inv(t)
  {
    var r := RouteOf(t.social, c);
    && r.Routed?
    && (Key(c) in t.log.byClient ==>
          && SameCommand(t.log.messages[t.log.byClient[Key(c)]], c, r.conversationId)
          && exists u :: u in r.audience && (r.conversationId, u) !in t.members)
  }

  lemma AppendChangesRows(t: Tables, c: Command, time: string, gap: nat)
    requires Inv(t) && RouteOf(t.social, c).Routed? && Key(c) !in t.log.byClient
    ensures !SameRows(t, Execute(t, c, time, gap, ReplyLost).0)
  {
    hide SeqIndexed, Dense, IdsOrdered, StatusesSound, MembersBounded, BusinessKeys, Upserted, Enrolled, MembersOf;
    assert Key(c) in Execute(t, c, time, gap, ReplyLost).0.log.byClient;
  }

  lemma RepeatChangesRowsIff(t: Tables, c: Command, time: string, gap: nat)
    requires Inv(t) && RouteOf(t.social, c).Routed? && Key(c) in t.log.byClient
    requires SameCommand(t.log.messages[t.log.byClient[Key(c)]], c, RouteOf(t.social, c).conversationId)
    ensures SameRows(t, Execute(t, c, time, gap, ReplyLost).0) <==> !WouldWrite(t, c)
  {
    var r, id := RouteOf(t.social, c), t.log.byClient[Key(c)];
    var row := t.log.messages[id];
    assert StoredAs(t, c, id, r.conversationId, row.conversationSeq);
    StoredInConversation(t, c, id, r.conversationId, row.conversationSeq);
    ResendShape(t, c, id, r.conversationId, row.conversationSeq, time, gap, ReplyLost);
    PreparedOnlyEnrols(t, r);
    hide Inv, Execute, Prepared, StoredAs, RouteOf, SameCommand;
  }

  lemma RefusedChangesNothing(t: Tables, c: Command, time: string, gap: nat, fault: Fault)
    requires Inv(t) && Execute(t, c, time, gap, fault).1.Failed?
    requires fault != ReplyLost || RouteOf(t.social, c).Refused?
             || (Key(c) in t.log.byClient
                 && !SameCommand(t.log.messages[t.log.byClient[Key(c)]], c, RouteOf(t.social, c).conversationId))
    ensures SameRows(t, Execute(t, c, time, gap, fault).0)
  {
    hide SeqIndexed, Dense, IdsOrdered, StatusesSound, MembersBounded, BusinessKeys, Upserted, Enrolled, Appended, MembersOf;
  }

  /**
   A command answered with a failure leaves every row of every table as it was, except in exactly
   one case: the commit succeeded but its answer was lost, and there was something to write.
   */
  lemma FailureChangesNothingIff(t: Tables, c: Command, time: string, gap: nat, fault: Fault)
    requires Inv(t)
    ensures var (u, reply) := Execute(t, c, time, gap, fault);
            reply.Failed? ==> (SameRows(t, u) <==> !(fault == ReplyLost && WouldWrite(t, c)))
  {
    hide Execute, Inv, SameCommand, RouteOf;
    if Execute(t, c, time, gap, fault).1.Failed? {
      var r := RouteOf(t.social, c);
      if fault != ReplyLost || r.Refused? {
        RefusedChangesNothing(t, c, time, gap, fault);
      } else if Key(c) !in t.log.byClient {
        AppendChangesRows(t, c, time, gap);
      } else {
        KeyHasRow(t, c);
        if SameCommand(t.log.messages[t.log.byClient[Key(c)]], c, r.conversationId) {
          RepeatChangesRowsIff(t, c, time, gap);
        } else {
          RefusedChangesNothing(t, c, time, gap, fault);
        }
      }
    }
  }

  lemma KeyHasRow(t: Tables, c: Command)
    requires Inv(t)
    ensures Key(c) in t.log.byClient ==> t.log.byClient[Key(c)] in t.log.messages
  {
    hide SeqIndexed, Dense, IdsOrdered, StatusesSound, MembersBounded, BusinessKeys;
  }

  // ---------------------------------------------------------------- where rows come from

  ghost predicate NoNewRow(t: Tables, u: Tables) {
    u.social == t.social && forall id :: id in u.log.messages ==> id in t.log.messages
  }

  lemma AckEffectAddsNoRow(t: Tables, r: AckRequest, now: Timestamp)
    requires StatusOf(r.receipt).Some?
    ensures NoNewRow(t, AckEffect(t, r, now).0)
  {
    hide Receipted, CursorMoved;
    if r.cursor.Some? {
      hide AckReceiver;
    } else {
      hide AckConversation;
    }
  }

  /** A receipt rewrites rows; it adds none and touches neither friends nor groups. */
  lemma AckAddsNoRow(t: Tables, r: AckRequest, now: Timestamp, fault: Fault)
    ensures NoNewRow(t, Acknowledge(t, r, now, fault).0)
  {
    hide AckEffect;
    if StatusOf(r.receipt).Some? {
      AckEffectAddsNoRow(t, r, now);
    }
  }

  lemma ExecuteAddsItsRow(t: Tables, c: Command, time: string, gap: nat, fault: Fault)
    requires Inv(t)
    ensures var r, u := RouteOf(t.social, c), Execute(t, c, time, gap, fault).0;
            && u.social == t.social
            && forall id :: id in u.log.messages && id !in t.log.messages ==>
                 r.Routed? && u.log.messages[id] == NewMessage(c, r.conversationId, u.log.messages[id].conversationSeq, time)
  {
    hide LogInv, MembersBounded, BusinessKeys, MembersOf, Upserted, Enrolled;
  }

  /** A row that a step adds was asked for by that step. */
  lemma NewRowIsSent(t: Tables, e: Event, id: int)
    requires Inv(t) && id !in t.log.messages && id in Step(t, e).log.messages
    ensures e.Send? && CommandOf(e.request).Some?
    ensures var c := CommandOf(e.request).value;
            var r, row := RouteOf(t.social, c), Step(t, e).log.messages[id];
            r.Routed? && row == NewMessage(c, r.conversationId, row.conversationSeq, e.sendDateTime)
  {
    hide Inv, Execute, Acknowledge, NewMessage;
    match e
    case Send(r, time, gap, fault) =>
      if CommandOf(r).Some? {
        ExecuteAddsItsRow(t, CommandOf(r).value, time, gap, fault);
      }
    case Ack(r, now, fault) => AckAddsNoRow(t, r, now, fault);
    case _ =>
  }

  ghost predicate SentAs(es: seq<Event>, i: nat, row: Message)
    requires i < |es|
  {
    && es[i].Send? && CommandOf(es[i].request).Some?
    && var c := CommandOf(es[i].request).value;
       var r := RouteOf(StateAt(EmptyTables(), es, i).social, c);
       r.Routed? && Fixed(row) == NewMessage(c, r.conversationId, row.conversationSeq, es[i].sendDateTime)
  }

  /** No message appears that nobody sent: every row of every reachable state goes back to one send. */
  lemma {:induction false} Provenance(es: seq<Event>, n: nat, id: int) returns (i: nat)
    requires n <= |es| && id in StateAt(EmptyTables(), es, n).log.messages
    ensures i < n && SentAs(es, i, StateAt(EmptyTables(), es, n).log.messages[id])
    decreases n
  {
    hide Inv, Grows, Step;
    assert n > 0;
    var t, u := StateAt(EmptyTables(), es, n - 1), StateAt(EmptyTables(), es, n);
    if id in t.log.messages {
      i := Provenance(es, n - 1, id);
      RunGrows(EmptyTables(), es, n - 1, n);
      GrowsAt(t, u, id, 0, (0, 0));
      FixedColumns(t.log.messages[id], u.log.messages[id]);
    } else {
      NewRowIsSent(t, es[n - 1], id);
      i := n - 1;
    }
  }

  // ---------------------------------------------------------------- conflicts

  ghost predicate NobodyUnfriends(es: seq<Event>) {
    forall i :: 0 <= i < |es| ==> !es[i].RemoveFriend?
  }

  /** A sender uses a client id for one command only. */
  ghost predicate KeysNameOneCommand(es: seq<Event>) {
    forall i, j, c, d :: IsSend(es, i, c) && IsSend(es, j, d) && Key(c) == Key(d) ==> c == d
  }

  lemma SocialStepStable(s: Social, e: Event, c: Command)
    requires !e.RemoveFriend? && RouteOf(s, c).Routed?
    ensures var r := RouteOf(SocialStep(s, e), c); r.Routed? && r.conversationId == RouteOf(s, c).conversationId
  {
  }

  lemma StepSocial(t: Tables, e: Event)
    requires Inv(t)
    ensures Step(t, e).social == SocialStep(t.social, e)
  {
    hide Inv, Execute, Acknowledge, NewMessage;
    match e
    case Send(r, time, gap, fault) =>
      if CommandOf(r).Some? {
        ExecuteAddsItsRow(t, CommandOf(r).value, time, gap, fault);
      }
    case Ack(r, now, fault) => AckAddsNoRow(t, r, now, fault);
    case _ =>
  }

  lemma {:induction false} RouteStable(es: seq<Event>, i: nat, j: nat, c: Command)
    requires i <= j <= |es| && NobodyUnfriends(es) && RouteOf(StateAt(EmptyTables(), es, i).social, c).Routed?
    ensures var r := RouteOf(StateAt(EmptyTables(), es, j).social, c);
            r.Routed? && r.conversationId == RouteOf(StateAt(EmptyTables(), es, i).social, c).conversationId
    decreases j
  {
    hide Inv, Step, RouteOf, SocialStep;
    if i < j {
      RouteStable(es, i, j - 1, c);
      StepSocial(StateAt(EmptyTables(), es, j - 1), es[j - 1]);
      SocialStepStable(StateAt(EmptyTables(), es, j - 1).social, es[j - 1], c);
    }
  }

  /** The command is stored, but its sender and target now share another conversation than the row's. */
  ghost predicate MovedAway(t: Tables, c: Command)
    requires Inv(t)
  {
    var r := RouteOf(t.social, c);
    r.Routed? && Key(c) in t.log.byClient && t.log.messages[t.log.byClient[Key(c)]].conversationId != r.conversationId
  }

  lemma ConflictWhenMoved(t: Tables, c: Command, time: string, gap: nat, fault: Fault)
    requires Inv(t)
    requires Key(c) in t.log.byClient ==>
               var row := t.log.messages[t.log.byClient[Key(c)]];
               row.receiverId == Target(c) && row.msgType == TEXT && row.content == c.content
    ensures Execute(t, c, time, gap, fault).1 == Failed(IdempotencyConflict) <==> MovedAway(t, c)
  {
    AnswerExact(t, c, time, gap, fault);
    hide Execute, RouteOf, SeqIndexed, Dense, IdsOrdered, StatusesSound, MembersBounded, BusinessKeys;
  }

  /** If a sender uses a client id for one command only, the row under a command's key is that command. */
  lemma KeyHoldsThisCommand(es: seq<Event>, j: nat, c: Command)
    requires KeysNameOneCommand(es) && IsSend(es, j, c) && Key(c) in StateAt(EmptyTables(), es, j).log.byClient
    ensures var t := StateAt(EmptyTables(), es, j);
            var id := t.log.byClient[Key(c)];
            && id in t.log.messages
            && var row := t.log.messages[id];
               row.receiverId == Target(c) && row.msgType == TEXT && row.content == c.content
  {
    hide Inv, StateAt, RouteOf, CommandOf;
    var t := StateAt(EmptyTables(), es, j);
    KeyHasRow(t, c);
    RowUnderKey(t, c);
    var id := t.log.byClient[Key(c)];
    var row := t.log.messages[id];
    var i := Provenance(es, j, id);
    var d := CommandOf(es[i].request).value;
    assert ClientKey(row) == ClientKey(Fixed(row)) == Key(d);
    assert IsSend(es, i, d);
    assert d == c;
    assert Fixed(row).content == row.content && Fixed(row).receiverId == row.receiverId && Fixed(row).msgType == row.msgType;
  }

  lemma RowUnderKey(t: Tables, c: Command)
    requires Inv(t) && Key(c) in t.log.byClient && t.log.byClient[Key(c)] in t.log.messages
    ensures ClientKey(t.log.messages[t.log.byClient[Key(c)]]) == Key(c)
  {
    hide SeqIndexed, Dense, IdsOrdered, StatusesSound, MembersBounded, BusinessKeys;
  }

  /**
   If senders use a client id for one command only, a command of any run, however often and in
   whatever order it is repeated, is refused as a conflict exactly when it is stored already and
   its sender and target have come to share another conversation since.
   */
  lemma ConflictIff(es: seq<Event>, j: nat, c: Command)
    requires KeysNameOneCommand(es) && IsSend(es, j, c)
    ensures ReplyAt(EmptyTables(), es, j) == Failed(IdempotencyConflict) <==> MovedAway(StateAt(EmptyTables(), es, j), c)
  {
    hide Inv, StateAt, MovedAway, Execute, RouteOf, KeysNameOneCommand, Target;
    var t := StateAt(EmptyTables(), es, j);
    if Key(c) in t.log.byClient {
      KeyHoldsThisCommand(es, j, c);
    }
    ConflictWhenMoved(t, c, es[j].sendDateTime, es[j].gap, es[j].sendFault);
  }

  /** While nobody is unfriended that never happens. */
  lemma NoConflict(es: seq<Event>, j: nat, c: Command)
    requires NobodyUnfriends(es) && KeysNameOneCommand(es) && IsSend(es, j, c)
    ensures ReplyAt(EmptyTables(), es, j) != Failed(IdempotencyConflict)
  {
    hide Inv, StateAt, RouteOf, CommandOf, ReplyAt;
    ConflictIff(es, j, c);
    var t := StateAt(EmptyTables(), es, j);
    if MovedAway(t, c) {
      KeyHasRow(t, c);
      RowUnderKey(t, c);
      var id := t.log.byClient[Key(c)];
      var row := t.log.messages[id];
      var i := Provenance(es, j, id);
      var d := CommandOf(es[i].request).value;
      assert ClientKey(row) == ClientKey(Fixed(row)) == Key(d);
      assert IsSend(es, i, d);
      assert d == c;
      RouteStable(es, i, j, c);
    }
  }
}
