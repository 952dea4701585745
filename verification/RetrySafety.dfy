/**
 Why a gateway may repeat a command on another Message node: among the services it repeats, the
 pulls only read, and a text or a receipt that took effect before changes nothing again.
 */
module RetrySafety {
  import opened MessageTables
  import opened Accept
  import opened Receipts
  import opened MessageCore
  import opened Resends
  import CommandRouting
  import Sync

  /** The service a writing command arrives under; pulls write nothing and are no events. */
  function ServiceOf(e: Event): int {
    match e
    case Send(r, _, _, _) => if r.group then CommandRouting.GROUP_TEXT_SEND else CommandRouting.TEXT_SEND
    case Ack(_, _, _) => CommandRouting.ACK
    case _ => 0
  }

  /** The same request again, with another clock, id and fate. */
  ghost predicate Repeats(e: Event, f: Event) {
    || (e.Send? && f.Send? && CommandOf(e.request).Some? && CommandOf(e.request) == CommandOf(f.request))
    || (e.Ack? && f.Ack? && e.ack == f.ack)
  }

  /** The event's transaction committed, whether or not its answer got through. */
  ghost predicate Committed(t: Tables, e: Event)
    requires Inv(t)
  {
    match e
    case Send(r, time, gap, fault) =>
      CommandOf(r).Some? && fault != RolledBack && Execute(t, CommandOf(r).value, time, gap, NoFault).1.Accepted?
    case Ack(r, now, fault) =>
      r.messageId > 0 && fault != RolledBack && StatusOf(r.receipt).Some? && AckEffect(t, r, now).1 == Updated
    case _ => false
  }

  lemma OnlyEnrolsReflexive(t: Tables)
    ensures OnlyEnrols(t, t)
  {
  }

  lemma CommittedSend(t: Tables, e: Event)
    requires Inv(t) && e.Send? && Committed(t, e)
    ensures Step(t, e) == Execute(t, CommandOf(e.request).value, e.sendDateTime, e.gap, NoFault).0
  {
    hide Inv, Execute;
    LostReplyTookEffect(t, CommandOf(e.request).value, e.sendDateTime, e.gap);
  }

  lemma RepeatedSend(t: Tables, e: Event, later: Tables, f: Event)
    requires Inv(t) && Inv(later) && e.Send? && Repeats(e, f) && Committed(t, e) && Grows(Step(t, e), later)
    ensures OnlyEnrols(later, Step(later, f))
  {
    hide Inv, Execute, Grows, OnlyEnrols;
    CommittedSend(t, e);
    ResendSafe(t, CommandOf(e.request).value, e.sendDateTime, e.gap, later, f.sendDateTime, f.gap, f.sendFault);
  }

  lemma RepeatedAck(t: Tables, e: Event, later: Tables, f: Event)
    requires Inv(t) && Inv(later) && e.Ack? && Repeats(e, f) && Committed(t, e) && Grows(Step(t, e), later)
    ensures Step(later, f) == later
  {
    hide Inv, AckEffect, Grows;
    AckReplayChangesNothing(t, e.ack, e.now, later, f.now);
  }

  /**
   Over every run: a repeated text or receipt whose earlier copy committed, with or without an
   answer, leaves all rows, sequence numbers, statuses, read times and cursors as they were.
   */
  lemma RepeatChangesNothing(t: Tables, es: seq<Event>, i: nat, j: nat)
    requires Inv(t) && i < j < |es| && Repeats(es[i], es[j]) && Committed(StateAt(t, es, i), es[i])
    ensures CommandRouting.CanRetry(ServiceOf(es[i]))
    ensures OnlyEnrols(StateAt(t, es, j), StateAt(t, es, j + 1))
    ensures es[i].Ack? ==> StateAt(t, es, j + 1) == StateAt(t, es, j)
  {
    hide Inv, Grows, Step, OnlyEnrols, Committed, CommandOf;
    RunGrows(t, es, i + 1, j);
    var s, later := StateAt(t, es, i), StateAt(t, es, j);
    assert Grows(Step(s, es[i]), later);
    OnlyEnrolsReflexive(later);
    if es[i].Send? {
      RepeatedSend(s, es[i], later, es[j]);
    } else {
      RepeatedAck(s, es[i], later, es[j]);
    }
  }

  /** The same positions of a log that has grown hold the same messages. */
  lemma PagesAgree(a: Log, b: Log, cid: int, after: int, first: seq<Message>, second: seq<Message>)
    requires LogGrows(a, b) && |first| <= |second|
    requires Sync.Consecutive(a, cid, after, first) && Sync.Consecutive(b, cid, after, second)
    ensures forall k :: 0 <= k < |first| ==> Fixed(first[k]) == Fixed(second[k])
  {
    Sync.ConsecutiveLater(a, b, cid, after, first);
    hide LogGrows;
    forall k | 0 <= k < |first|
      ensures Fixed(first[k]) == Fixed(second[k])
    {
      assert Sync.FixedRowAt(b, cid, after + 1 + k, first[k]);
      assert Sync.RowAt(b, cid, after + 1 + k, second[k]);
    }
  }

  /** A pull repeated at any later time misses nothing: it starts with the rows it gave before. */
  lemma RepeatedPullExtends(t: Tables, later: Tables, uid: int, cid: int, afterSeq: int, pullCount: int)
    requires Sync.Reads(t, uid, cid, afterSeq) && Inv(later) && Grows(t, later)
    ensures var first, second := Sync.SyncConversation(t, uid, cid, afterSeq, pullCount),
                                 Sync.SyncConversation(later, uid, cid, afterSeq, pullCount);
            && first.Page? && second.Page? && |first.messages| <= |second.messages| && first.nextSeq <= second.nextSeq
            && forall k :: 0 <= k < |first.messages| ==> Fixed(first.messages[k]) == Fixed(second.messages[k])
  {
    hide Grows, Sync.SyncConversation, Inv, LogGrows, Sync.Consecutive, Fixed;
    GrowsAt(t, later, 0, cid, (cid, uid));
    LogOfGrowth(t, later);
    PageLength(t, uid, cid, afterSeq, pullCount);
    PageLength(later, uid, cid, afterSeq, pullCount);
    var after := Sync.EffectiveAfter(t.members[(cid, uid)], afterSeq);
    PagesAgree(t.log, later.log, cid, after, Sync.SyncConversation(t, uid, cid, afterSeq, pullCount).messages,
               Sync.SyncConversation(later, uid, cid, afterSeq, pullCount).messages);
  }

  lemma LogOfGrowth(t: Tables, later: Tables)
    requires Grows(t, later)
    ensures LogGrows(t.log, later.log)
  {
    hide LogGrows, ConversationsGrow, MembersGrow;
  }

  /** A page is as long as the bound and the log allow. */
  lemma PageLength(t: Tables, uid: int, cid: int, afterSeq: int, pullCount: int)
    requires Sync.Reads(t, uid, cid, afterSeq)
    ensures var page := Sync.SyncConversation(t, uid, cid, afterSeq, pullCount);
            var after := Sync.EffectiveAfter(t.members[(cid, uid)], afterSeq);
            var left := t.conversations[cid].latestSeq - after;
            && page.Page? && page.nextSeq == after + |page.messages| && Sync.Consecutive(t.log, cid, after, page.messages)
            && |page.messages| == if left <= 0 then 0 else if left < Sync.BoundedCount(pullCount) then left else Sync.BoundedCount(pullCount)
  {
    Sync.PageExact(t, uid, cid, afterSeq, pullCount);
    var m, latest := t.members[(cid, uid)], t.conversations[cid].latestSeq;
    assert MemberBounded(m, latest);
    Sync.RowsConsecutive(t.log, t.conversations, cid, Sync.EffectiveAfter(m, afterSeq), latest);
  }

  // ---------------------------------------------------------------- a text and its repeat

  /** Two users become friends, and one sends a text twice. */
  function RepeatedText(session: int, r: TextRequest, time: string, again: string): seq<Event> {
    [InsertFriend(r.uid, r.target, session), Send(r, time, 0, NoFault), Send(r, again, 0, NoFault)]
  }

  lemma FriendsFirst(session: int, r: TextRequest, time: string, again: string)
    ensures var es := RepeatedText(session, r, time, again);
            var t := StateAt(EmptyTables(), es, 1);
            t == EmptyTables().(social := EmptyTables().social.(friends := map[(r.uid, r.target) := session]))
  {
    hide Inv;
    var es := RepeatedText(session, r, time, again);
    assert StateAt(EmptyTables(), es, 0) == EmptyTables();
    assert StateAt(EmptyTables(), es, 1) == Step(EmptyTables(), es[0]);
  }

  lemma FirstCopyIsNew(session: int, r: TextRequest, time: string, again: string)
    requires !r.group && CommandOf(r).Some?
    ensures var es := RepeatedText(session, r, time, again);
            var t1, c := StateAt(EmptyTables(), es, 1), CommandOf(r).value;
            var (t2, first) := Execute(t1, c, time, 0, NoFault);
            && StateAt(EmptyTables(), es, 2) == t2 && ReplyAt(EmptyTables(), es, 1) == first && t2.social == t1.social
            && ShouldDeliver(first) && first.conversationId == session && first.conversationSeq == 1
            && first.recipients == {r.target}
            && RouteOf(t1.social, c).Routed? && RouteOf(t1.social, c).conversationId == session
  {
    hide Inv, Execute;
    var es, c := RepeatedText(session, r, time, again), CommandOf(r).value;
    FriendsFirst(session, r, time, again);
    var t1 := StateAt(EmptyTables(), es, 1);
    AnswerExact(t1, c, time, 0, NoFault);
    ExecuteAddsItsRow(t1, c, time, 0, NoFault);
    assert StateAt(EmptyTables(), es, 2) == Step(t1, es[1]);
  }

  /**
   The first copy is new, gets number 1 of the conversation and is delivered; the repeat is
   answered with the same message and not delivered.
   */
  lemma RepeatIsAnsweredAlike(session: int, r: TextRequest, time: string, again: string)
    requires !r.group && CommandOf(r).Some?
    ensures var es := RepeatedText(session, r, time, again);
            var first, second := ReplyAt(EmptyTables(), es, 1), ReplyAt(EmptyTables(), es, 2);
            && ShouldDeliver(first) && first.conversationId == session && first.conversationSeq == 1
            && first.recipients == {r.target}
            && second == first.(duplicate := true)
  {
    var es, c := RepeatedText(session, r, time, again), CommandOf(r).value;
    hide Inv, Execute, StateAt, Grows, CommandOf;
    FirstCopyIsNew(session, r, time, again);
    var t1, t2 := StateAt(EmptyTables(), es, 1), StateAt(EmptyTables(), es, 2);
    var first := ReplyAt(EmptyTables(), es, 1);
    GrowsReflexive(t2);
    AcceptedIsStored(t1, c, time, 0, NoFault, t2);
    AnswerExact(t2, c, again, 0, NoFault);
    AcceptedSame(t2, c, c, again, 0, NoFault, first.messageId, first.conversationId, first.conversationSeq);
  }

  // ---------------------------------------------------------------- a commit whose answer is lost

  /** Two users become friends, and one sends a text whose answer is lost. */
  function LostAnswer(session: int, r: TextRequest, time: string): seq<Event> {
    [InsertFriend(r.uid, r.target, session), Send(r, time, 0, ReplyLost)]
  }

  /** The sender is told of a database failure although the text has been written. */
  lemma LostAnswerHidesRow(session: int, r: TextRequest, time: string)
    requires !r.group && CommandOf(r).Some?
    ensures var es := LostAnswer(session, r, time);
            && ReplyAt(EmptyTables(), es, 1) == Failed(MysqlFailed)
            && !SameRows(StateAt(EmptyTables(), es, 1), StateAt(EmptyTables(), es, 2))
  {
    hide Inv, Execute, SameRows;
    var es, c := LostAnswer(session, r, time), CommandOf(r).value;
    assert StateAt(EmptyTables(), es, 0) == EmptyTables();
    assert StateAt(EmptyTables(), es, 1) == Step(EmptyTables(), es[0]);
    var t1 := StateAt(EmptyTables(), es, 1);
    assert StateAt(EmptyTables(), es, 2) == Step(t1, es[1]);
    AnswerExact(t1, c, time, 0, ReplyLost);
    FailureChangesNothingIff(t1, c, time, 0, ReplyLost);
  }
}
