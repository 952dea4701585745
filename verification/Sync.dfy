/**
 Reading a conversation page by page.  A page is what one syncConversation query returns; the
 client follows nextSeq while hasMore, and other transactions may commit between its pages.
 */
module Sync {
  import opened MessageTables
  import opened Accept
  import opened Receipts

  datatype SyncReply =
    | SyncFailed(error: Error)
    | Page(kind: Kind, latestSeq: nat, messages: seq<Message>, nextSeq: int, hasMore: bool)

  function BoundedCount(pullCount: int): (n: nat)
    ensures 1 <= n <= 100
  {
    if pullCount <= 0 then 50 else if pullCount > 100 then 100 else pullCount
  }

  predicate Stored(l: Log, cid: int, s: int) { (cid, s) in l.bySeq && l.bySeq[(cid, s)] in l.messages }

  /** SELECT ... WHERE conversationSeq > lo AND conversationSeq <= hi ORDER BY conversationSeq. */
  function Rows(l: Log, cid: int, lo: int, hi: int): seq<Message>
    decreases hi - lo
  {
    if hi <= lo then []
    else Rows(l, cid, lo, hi - 1) + (if Stored(l, cid, hi) then [l.messages[l.bySeq[(cid, hi)]]] else [])
  }

  function Limit(rows: seq<Message>, n: nat): seq<Message> {
    if |rows| <= n then rows else rows[..n]
  }

  function WindowEnd(m: Member, latestSeq: nat): nat {
    if m.leftSeq.Some? then m.leftSeq.value else latestSeq
  }

  function EffectiveAfter(m: Member, afterSeq: int): int { Max(afterSeq, m.joinedSeq - 1) }

  function SyncConversation(t: Tables, uid: int, cid: int, afterSeq: int, pullCount: int): SyncReply
  {
    if uid <= 0 || cid <= 0 || afterSeq < 0 then SyncFailed(JsonParser)
    else if cid !in t.conversations || (cid, uid) !in t.members then SyncFailed(MessageOwnershipInvalid)
    else
      var conv, m := t.conversations[cid], t.members[(cid, uid)];
      var after, count := EffectiveAfter(m, afterSeq), BoundedCount(pullCount);
      var rows := Rows(t.log, cid, after, WindowEnd(m, conv.latestSeq));
      var page := Limit(rows, count);
      Page(conv.kind, conv.latestSeq, page,
           if page == [] then after else page[|page| - 1].conversationSeq, |rows| > count)
  }

  // ---------------------------------------------------------------- one page

  ghost predicate RowAt(l: Log, cid: int, s: int, row: Message) {
    Stored(l, cid, s) && row == l.messages[l.bySeq[(cid, s)]]
  }

  /** `rows` are the messages lo+1, lo+2, ... of the conversation, one for each number. */
  ghost predicate Consecutive(l: Log, cid: int, lo: int, rows: seq<Message>) {
    forall i :: 0 <= i < |rows| ==> RowAt(l, cid, lo + 1 + i, rows[i])
  }

  lemma {:induction false} RowsConsecutive(l: Log, convs: Conversations, cid: int, lo: int, hi: int)
    requires SeqIndexed(l.messages, l.bySeq) && Dense(convs, l.bySeq)
    requires cid in convs && 0 <= lo && hi <= convs[cid].latestSeq
    ensures var rows := Rows(l, cid, lo, hi); |rows| == (if hi <= lo then 0 else hi - lo) && Consecutive(l, cid, lo, rows)
    decreases hi - lo
  {
    if lo < hi {
      RowsConsecutive(l, convs, cid, lo, hi - 1);
    }
  }

  ghost predicate Reads(t: Tables, uid: int, cid: int, afterSeq: int) {
    Inv(t) && uid > 0 && cid > 0 && afterSeq >= 0 && cid in t.conversations && (cid, uid) in t.members
  }

  /**
   A page starts right after the cursor, skips nothing and ends at nextSeq; hasMore is true
   exactly when visible messages remain, and then the cursor has moved forward.
   */
  lemma PageExact(t: Tables, uid: int, cid: int, afterSeq: int, pullCount: int)
    requires Reads(t, uid, cid, afterSeq)
    ensures var m, latest := t.members[(cid, uid)], t.conversations[cid].latestSeq;
            var after := EffectiveAfter(m, afterSeq);
            var page := SyncConversation(t, uid, cid, afterSeq, pullCount);
            && page.Page? && page.latestSeq == latest
            && Consecutive(t.log, cid, after, page.messages)
            && page.nextSeq == after + |page.messages|
            && |page.messages| <= BoundedCount(pullCount) && (page.messages != [] ==> page.nextSeq <= latest)
            && (page.hasMore <==> page.nextSeq < latest)
            && (page.hasMore ==> afterSeq < page.nextSeq)
  {
    var m, latest := t.members[(cid, uid)], t.conversations[cid].latestSeq;
    assert MemberBounded(m, latest);
    var after := EffectiveAfter(m, afterSeq);
    RowsConsecutive(t.log, t.conversations, cid, after, latest);
    var page := SyncConversation(t, uid, cid, afterSeq, pullCount);
    if page.messages != [] {
      var i := |page.messages| - 1;
      assert SeqKey(page.messages[i]) == (cid, after + 1 + i);
    }
  }

  // ---------------------------------------------------------------- many pages, other writers in between

  /** The pages a client reads when its k-th query meets tables ts[k]. */
  ghost function Collected(ts: seq<Tables>, uid: int, cid: int, afterSeq: int, counts: seq<int>): (seq<Message>, int, bool)
    requires |ts| == |counts| >= 1
  {
    var page := SyncConversation(ts[0], uid, cid, afterSeq, counts[0]);
    if page.SyncFailed? then ([], afterSeq, false)
    else if |ts| == 1 then (page.messages, page.nextSeq, page.hasMore)
    else
      var (rest, next, more) := Collected(ts[1..], uid, cid, page.nextSeq, counts[1..]);
      (page.messages + rest, next, more)
  }

  ghost predicate History(ts: seq<Tables>) {
    && (forall t :: t in ts ==> Inv(t))
    && (forall i :: 0 <= i < |ts| - 1 ==> Grows(ts[i], ts[i + 1]))
  }

  ghost predicate FixedRowAt(l: Log, cid: int, s: int, row: Message) {
    Stored(l, cid, s) && Fixed(row) == Fixed(l.messages[l.bySeq[(cid, s)]])
  }

  /** `rows` are the messages lo+1, lo+2, ... of `l`, up to columns that receipts may still move. */
  ghost predicate ConsecutiveFixed(l: Log, cid: int, lo: int, rows: seq<Message>) {
    forall i :: 0 <= i < |rows| ==> FixedRowAt(l, cid, lo + 1 + i, rows[i])
  }

  lemma ConsecutiveLater(a: Log, b: Log, cid: int, lo: int, rows: seq<Message>)
    requires LogGrows(a, b) && Consecutive(a, cid, lo, rows)
    ensures ConsecutiveFixed(b, cid, lo, rows)
  {
    forall i | 0 <= i < |rows|
      ensures FixedRowAt(b, cid, lo + 1 + i, rows[i])
    {
      assert RowAt(a, cid, lo + 1 + i, rows[i]);
      var id := a.bySeq[(cid, lo + 1 + i)];
      assert id in a.messages && MessageGrows(a.messages[id], b.messages[id]);
    }
  }

  lemma {:induction false} GrowsAlong(ts: seq<Tables>, i: nat, j: nat)
    requires History(ts) && i <= j < |ts|
    ensures Grows(ts[i], ts[j])
    decreases j
  {
    if i == j {
      GrowsReflexive(ts[i]);
    } else {
      GrowsAlong(ts, i, j - 1);
      GrowsTransitive(ts[i], ts[j - 1], ts[j]);
    }
  }

  lemma ConsecutiveJoin(l: Log, cid: int, lo: int, front: seq<Message>, back: seq<Message>)
    requires ConsecutiveFixed(l, cid, lo, front) && ConsecutiveFixed(l, cid, lo + |front|, back)
    ensures ConsecutiveFixed(l, cid, lo, front + back)
  {
    var rows := front + back;
    forall i | 0 <= i < |rows|
      ensures FixedRowAt(l, cid, lo + 1 + i, rows[i])
    {
      if i < |front| {
        assert FixedRowAt(l, cid, lo + 1 + i, front[i]);
      } else {
        var j := i - |front|;
        assert FixedRowAt(l, cid, lo + |front| + 1 + j, back[j]);
      }
    }
  }

  /**
   However many transactions commit between the pages, the pages together are the messages
   after the cursor, each exactly once, in order and without a gap, up to the final nextSeq;
   and when the last page says there is no more, nothing the log then holds is missing.
   */
  lemma {:induction false} PagingLossless(ts: seq<Tables>, uid: int, cid: int, afterSeq: int, counts: seq<int>)
    requires |ts| == |counts| >= 1 && History(ts) && Reads(ts[0], uid, cid, afterSeq)
    ensures var after := EffectiveAfter(ts[0].members[(cid, uid)], afterSeq);
            var last := ts[|ts| - 1];
            var (got, next, more) := Collected(ts, uid, cid, afterSeq, counts);
            && ConsecutiveFixed(last.log, cid, after, got)
            && next == after + |got|
            && cid in last.conversations
            && (!more ==> last.conversations[cid].latestSeq <= next)
    decreases |ts|
  {
    hide Inv, Grows, SyncConversation, LogGrows;
    PageExact(ts[0], uid, cid, afterSeq, counts[0]);
    var m, page := ts[0].members[(cid, uid)], SyncConversation(ts[0], uid, cid, afterSeq, counts[0]);
    var after := EffectiveAfter(m, afterSeq);
    if |ts| == 1 {
      GrowsReflexive(ts[0]);
      JoinPages(ts[0], ts[0], cid, after, page.messages, []);
      assert page.messages + [] == page.messages;
    } else {
      HistoryTail(ts);
      GrowsAt(ts[0], ts[1], 0, cid, (cid, uid));
      PagingLossless(ts[1..], uid, cid, page.nextSeq, counts[1..]);
      GrowsAlong(ts, 0, |ts| - 1);
      JoinPages(ts[0], ts[|ts| - 1], cid, after, page.messages,
                Collected(ts[1..], uid, cid, page.nextSeq, counts[1..]).0);
    }
  }

  lemma HistoryTail(ts: seq<Tables>)
    requires |ts| > 1 && History(ts)
    ensures History(ts[1..]) && Inv(ts[0]) && Inv(ts[1]) && Inv(ts[|ts| - 1]) && Grows(ts[0], ts[1])
  {
    hide Inv, Grows;
    var rest := ts[1..];
    forall i | 0 <= i < |rest| - 1
      ensures Grows(rest[i], rest[i + 1])
    {
      assert rest[i] == ts[i + 1] && rest[i + 1] == ts[i + 1 + 1];
    }
  }

  /** The first page, as the log stands at the end, joined to the pages after it. */
  lemma JoinPages(t: Tables, last: Tables, cid: int, after: int, front: seq<Message>, back: seq<Message>)
    requires Grows(t, last)
    requires Consecutive(t.log, cid, after, front) && ConsecutiveFixed(last.log, cid, after + |front|, back)
    ensures ConsecutiveFixed(last.log, cid, after, front + back)
  {
    hide LogGrows, ConversationsGrow, MembersGrow;
    ConsecutiveLater(t.log, last.log, cid, after, front);
    ConsecutiveJoin(last.log, cid, after, front, back);
  }

  /**
   On a log nobody writes to, following nextSeq while hasMore ends: the distance from the cursor
   to the end of the log shrinks with every page (the decreases clause).
   */
  ghost function PullAll(t: Tables, uid: int, cid: int, afterSeq: int, pullCount: int): seq<Message>
    requires Reads(t, uid, cid, afterSeq)
    decreases t.conversations[cid].latestSeq - afterSeq
  {
    PageExact(t, uid, cid, afterSeq, pullCount);
    var page := SyncConversation(t, uid, cid, afterSeq, pullCount);
    if page.hasMore then page.messages + PullAll(t, uid, cid, page.nextSeq, pullCount) else page.messages
  }

  lemma ConsecutiveIsRows(l: Log, convs: Conversations, cid: int, lo: int, rows: seq<Message>)
    requires SeqIndexed(l.messages, l.bySeq) && Dense(convs, l.bySeq) && cid in convs && 0 <= lo
    requires Consecutive(l, cid, lo, rows) && (lo + |rows| == convs[cid].latestSeq || (rows == [] && convs[cid].latestSeq <= lo))
    ensures rows == Rows(l, cid, lo, convs[cid].latestSeq)
  {
    RowsConsecutive(l, convs, cid, lo, convs[cid].latestSeq);
    var all := Rows(l, cid, lo, convs[cid].latestSeq);
    forall i | 0 <= i < |rows|
      ensures rows[i] == all[i]
    {
      assert RowAt(l, cid, lo + 1 + i, rows[i]) && RowAt(l, cid, lo + 1 + i, all[i]);
    }
  }

  lemma ConsecutiveConcat(l: Log, cid: int, lo: int, front: seq<Message>, back: seq<Message>)
    requires Consecutive(l, cid, lo, front) && Consecutive(l, cid, lo + |front|, back)
    ensures Consecutive(l, cid, lo, front + back)
  {
    var rows := front + back;
    forall i | 0 <= i < |rows|
      ensures RowAt(l, cid, lo + 1 + i, rows[i])
    {
      if i < |front| {
        assert RowAt(l, cid, lo + 1 + i, front[i]);
      } else {
        assert RowAt(l, cid, lo + |front| + 1 + (i - |front|), back[i - |front|]);
      }
    }
  }

  lemma {:induction false} PullAllConsecutive(t: Tables, uid: int, cid: int, afterSeq: int, pullCount: int)
    requires Reads(t, uid, cid, afterSeq)
    ensures var after, got := EffectiveAfter(t.members[(cid, uid)], afterSeq), PullAll(t, uid, cid, afterSeq, pullCount);
            var latest := t.conversations[cid].latestSeq;
            && Consecutive(t.log, cid, after, got)
            && (after + |got| == latest || (got == [] && latest <= after))
    decreases t.conversations[cid].latestSeq - afterSeq
  {
    hide Inv, SyncConversation, Consecutive;
    PageExact(t, uid, cid, afterSeq, pullCount);
    var m, page := t.members[(cid, uid)], SyncConversation(t, uid, cid, afterSeq, pullCount);
    if page.hasMore {
      PullAllConsecutive(t, uid, cid, page.nextSeq, pullCount);
      ConsecutiveConcat(t.log, cid, EffectiveAfter(m, afterSeq), page.messages, PullAll(t, uid, cid, page.nextSeq, pullCount));
    }
  }

  /** What has been read then is exactly the visible messages, each once and in order. */
  lemma PullAllExact(t: Tables, uid: int, cid: int, afterSeq: int, pullCount: int)
    requires Reads(t, uid, cid, afterSeq)
    ensures var after := EffectiveAfter(t.members[(cid, uid)], afterSeq);
            PullAll(t, uid, cid, afterSeq, pullCount) == Rows(t.log, cid, after, t.conversations[cid].latestSeq)
  {
    PullAllConsecutive(t, uid, cid, afterSeq, pullCount);
    hide PullAll, Consecutive, IdsOrdered, ClientIndexed, StatusesSound, MembersBounded, BusinessKeys;
    ConsecutiveIsRows(t.log, t.conversations, cid, EffectiveAfter(t.members[(cid, uid)], afterSeq),
                      PullAll(t, uid, cid, afterSeq, pullCount));
  }
}
