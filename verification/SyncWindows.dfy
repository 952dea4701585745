/** Which messages a member may read: those after its cursor and none from before it joined. */
module SyncWindows {
  import Accept
  import opened MessageTables
  import opened Sync

  /** Message `m` of the conversation is there for a member that joined at `joinedSeq` and has read up to `afterSeq`. */
  predicate Visible(m: Message, cid: int, joinedSeq: nat, afterSeq: int) {
    m.conversationId == cid && m.conversationSeq > afterSeq && m.conversationSeq >= joinedSeq
  }

  /** The first number such a member is shown. */
  ghost predicate IsFirst(first: int, joinedSeq: nat, afterSeq: int) {
    first > afterSeq && first >= joinedSeq && (first == afterSeq + 1 || first == joinedSeq)
  }

  /** How many rows a page holds at most. */
  ghost predicate IsPageSize(size: int, pullCount: int) {
    && (pullCount <= 0 ==> size == 50)
    && (1 <= pullCount <= 100 ==> size == pullCount)
    && (pullCount > 100 ==> size == 100)
  }

  lemma ConsecutiveNumbers(l: Log, cid: int, lo: int, rows: seq<Message>)
    requires SeqIndexed(l.messages, l.bySeq) && Consecutive(l, cid, lo, rows)
    ensures forall i :: 0 <= i < |rows| ==> rows[i].conversationId == cid && rows[i].conversationSeq == lo + 1 + i
  {
    forall i | 0 <= i < |rows|
      ensures rows[i].conversationId == cid && rows[i].conversationSeq == lo + 1 + i
    {
      assert RowAt(l, cid, lo + 1 + i, rows[i]);
      assert SeqKey(rows[i]) == (cid, lo + 1 + i);
    }
  }

  /**
   A page, from the member row and the arguments alone: it starts at the first number the member
   may see, goes on without a gap, and is full while messages remain.
   */
  lemma PageWindow(t: Tables, uid: int, cid: int, afterSeq: int, pullCount: int)
    requires Reads(t, uid, cid, afterSeq)
    ensures var joined, latest := t.members[(cid, uid)].joinedSeq, t.conversations[cid].latestSeq;
            var page := SyncConversation(t, uid, cid, afterSeq, pullCount);
            && page.Page?
            && (forall i :: 0 <= i < |page.messages| ==> Visible(page.messages[i], cid, joined, afterSeq))
            && (forall i :: 0 <= i < |page.messages| ==>
                  page.messages[i].conversationSeq == page.messages[0].conversationSeq + i)
            && (page.messages != [] ==>
                  && IsFirst(page.messages[0].conversationSeq, joined, afterSeq)
                  && page.nextSeq == page.messages[|page.messages| - 1].conversationSeq)
            && (page.messages == [] <==> latest <= afterSeq || latest < joined)
            && (page.hasMore ==> IsPageSize(|page.messages|, pullCount))
            && (exists size :: IsPageSize(size, pullCount) && |page.messages| <= size)
  {
    PageExact(t, uid, cid, afterSeq, pullCount);
    var page := SyncConversation(t, uid, cid, afterSeq, pullCount);
    assert SeqIndexed(t.log.messages, t.log.bySeq);
    ConsecutiveNumbers(t.log, cid, EffectiveAfter(t.members[(cid, uid)], afterSeq), page.messages);
    FullWhileMore(t, uid, cid, afterSeq, pullCount);
    hide Inv, Consecutive;
    assert IsPageSize(BoundedCount(pullCount), pullCount);
  }

  /** Whatever is asked for, a page never shows a message from before the member joined or one it has read. */
  lemma PageVisible(t: Tables, uid: int, cid: int, afterSeq: int, pullCount: int)
    requires Inv(t)
    ensures var page := SyncConversation(t, uid, cid, afterSeq, pullCount);
            page.Page? ==>
              && (cid, uid) in t.members
              && forall i :: 0 <= i < |page.messages| ==>
                   Visible(page.messages[i], cid, t.members[(cid, uid)].joinedSeq, afterSeq)
  {
    if SyncConversation(t, uid, cid, afterSeq, pullCount).Page? {
      PageWindow(t, uid, cid, afterSeq, pullCount);
    }
  }

  lemma FullWhileMore(t: Tables, uid: int, cid: int, afterSeq: int, pullCount: int)
    requires Reads(t, uid, cid, afterSeq)
    ensures var page := SyncConversation(t, uid, cid, afterSeq, pullCount);
            page.Page? && (page.hasMore ==> |page.messages| == BoundedCount(pullCount))
  {
    hide Inv, Rows, BoundedCount;
  }

  /** A pull is refused exactly for unusable arguments, and otherwise exactly for someone who is no member. */
  lemma PullRefusedIff(t: Tables, uid: int, cid: int, afterSeq: int, pullCount: int)
    ensures var page := SyncConversation(t, uid, cid, afterSeq, pullCount);
            var usable := uid > 0 && cid > 0 && afterSeq >= 0;
            && (page == SyncFailed(Accept.JsonParser) <==> !usable)
            && (page == SyncFailed(Accept.MessageOwnershipInvalid) <==>
                  usable && !(cid in t.conversations && (cid, uid) in t.members))
            && (page.SyncFailed? ==> page.error in {Accept.JsonParser, Accept.MessageOwnershipInvalid})
  {
    hide Rows;
  }

  /** For a member that has left, nothing after its last number. */
  lemma NothingAfterLeaving(t: Tables, uid: int, cid: int, afterSeq: int, pullCount: int)
    requires SeqIndexed(t.log.messages, t.log.bySeq) && SyncConversation(t, uid, cid, afterSeq, pullCount).Page?
    ensures var m, page := t.members[(cid, uid)], SyncConversation(t, uid, cid, afterSeq, pullCount);
            m.leftSeq.Some? ==>
              forall i :: 0 <= i < |page.messages| ==> page.messages[i].conversationSeq <= m.leftSeq.value
  {
    var m, conv := t.members[(cid, uid)], t.conversations[cid];
    RowsBounded(t.log, cid, EffectiveAfter(m, afterSeq), WindowEnd(m, conv.latestSeq));
  }

  lemma {:induction false} RowsBounded(l: Log, cid: int, lo: int, hi: int)
    requires SeqIndexed(l.messages, l.bySeq)
    ensures forall m :: m in Rows(l, cid, lo, hi) ==> lo < m.conversationSeq <= hi
    decreases hi - lo
  {
    if lo < hi {
      RowsBounded(l, cid, lo, hi - 1);
    }
  }

  /** A whole pull of a quiet log returns a message of the conversation exactly when the member may see it. */
  lemma PullAllVisible(t: Tables, uid: int, cid: int, afterSeq: int, pullCount: int, id: int)
    requires Reads(t, uid, cid, afterSeq) && id in t.log.messages && t.log.messages[id].conversationId == cid
    ensures t.log.messages[id] in PullAll(t, uid, cid, afterSeq, pullCount)
            <==> Visible(t.log.messages[id], cid, t.members[(cid, uid)].joinedSeq, afterSeq)
  {
    PullAllConsecutive(t, uid, cid, afterSeq, pullCount);
    hide PullAll;
    PlaceInPull(t.log, t.conversations, cid, EffectiveAfter(t.members[(cid, uid)], afterSeq),
                PullAll(t, uid, cid, afterSeq, pullCount), id);
  }

  lemma PlaceInPull(l: Log, convs: Conversations, cid: int, after: int, got: seq<Message>, id: int)
    requires SeqIndexed(l.messages, l.bySeq) && Dense(convs, l.bySeq) && cid in convs && Consecutive(l, cid, after, got)
    requires after + |got| == convs[cid].latestSeq || (got == [] && convs[cid].latestSeq <= after)
    requires id in l.messages && l.messages[id].conversationId == cid
    ensures l.messages[id] in got <==> l.messages[id].conversationSeq > after
  {
    ConsecutiveNumbers(l, cid, after, got);
    var m := l.messages[id];
    assert SeqKey(m) in l.bySeq && l.bySeq[SeqKey(m)] == id;
    if m.conversationSeq > after {
      assert m.conversationSeq <= convs[cid].latestSeq;
      var i := m.conversationSeq - after - 1;
      assert RowAt(l, cid, after + 1 + i, got[i]);
      assert got[i] == m;
    }
  }

  /**
   However many transactions commit between the pages: no page ever shows a message from before the
   member joined or one it has read, and when the last page says there is no more, every message
   the member may see has been shown.
   */
  lemma PagingVisible(ts: seq<Tables>, uid: int, cid: int, afterSeq: int, counts: seq<int>)
    requires |ts| == |counts| >= 1 && History(ts) && Reads(ts[0], uid, cid, afterSeq)
    ensures var joined, last := ts[0].members[(cid, uid)].joinedSeq, ts[|ts| - 1];
            var (got, next, more) := Collected(ts, uid, cid, afterSeq, counts);
            && (forall i :: 0 <= i < |got| ==> Visible(got[i], cid, joined, afterSeq))
            && (!more ==> forall id :: id in last.log.messages && Visible(last.log.messages[id], cid, joined, afterSeq) ==>
                  exists i :: 0 <= i < |got| && Fixed(got[i]) == Fixed(last.log.messages[id]))
  {
    PagingLossless(ts, uid, cid, afterSeq, counts);
    var joined, last := ts[0].members[(cid, uid)].joinedSeq, ts[|ts| - 1];
    var after := EffectiveAfter(ts[0].members[(cid, uid)], afterSeq);
    var (got, next, more) := Collected(ts, uid, cid, afterSeq, counts);
    assert last in ts;
    hide Collected, History;
    FixedNumbers(last.log, cid, after, got);
    if !more {
      forall id | id in last.log.messages && Visible(last.log.messages[id], cid, joined, afterSeq)
        ensures exists i :: 0 <= i < |got| && Fixed(got[i]) == Fixed(last.log.messages[id])
      {
        FixedPlace(last.log, last.conversations, cid, after, got, id);
      }
    }
  }

  lemma FixedNumbers(l: Log, cid: int, lo: int, rows: seq<Message>)
    requires SeqIndexed(l.messages, l.bySeq) && ConsecutiveFixed(l, cid, lo, rows)
    ensures forall i :: 0 <= i < |rows| ==> rows[i].conversationId == cid && rows[i].conversationSeq == lo + 1 + i
  {
    forall i | 0 <= i < |rows|
      ensures rows[i].conversationId == cid && rows[i].conversationSeq == lo + 1 + i
    {
      assert FixedRowAt(l, cid, lo + 1 + i, rows[i]);
      var m := l.messages[l.bySeq[(cid, lo + 1 + i)]];
      assert SeqKey(m) == (cid, lo + 1 + i) && SeqKey(Fixed(m)) == SeqKey(m) && SeqKey(Fixed(rows[i])) == SeqKey(rows[i]);
    }
  }

  lemma FixedPlace(l: Log, convs: Conversations, cid: int, after: int, got: seq<Message>, id: int)
    requires SeqIndexed(l.messages, l.bySeq) && Dense(convs, l.bySeq) && cid in convs && ConsecutiveFixed(l, cid, after, got)
    requires convs[cid].latestSeq <= after + |got|
    requires id in l.messages && l.messages[id].conversationId == cid && l.messages[id].conversationSeq > after
    ensures exists i :: 0 <= i < |got| && Fixed(got[i]) == Fixed(l.messages[id])
  {
    var m := l.messages[id];
    assert SeqKey(m) in l.bySeq && l.bySeq[SeqKey(m)] == id;
    var i := m.conversationSeq - after - 1;
    assert FixedRowAt(l, cid, after + 1 + i, got[i]);
  }
}
