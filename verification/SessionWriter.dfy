/**
 The outgoing side of a client session.  SendRaw may be called from any thread: it looks at the
 closed flag, reserves a place in `queuedWrites`, and posts the frame to the session's strand.
 On the strand a posted frame joins the queue and wakes the write loop, which writes the head,
 removes it, and goes on until the queue is empty.
 */
module SessionWriter {
  type Frame = string

  const MAX_QUEUED_WRITES := 10240

  datatype Loop = Idle | Starting | Writing

  datatype Session = Session(
    checked: nat,              // callers past the closed test
    rejecting: nat,            // callers over the bound, about to give their place back
    reserved: nat,             // callers with a place, about to post
    posted: seq<Frame>,
    queue: seq<Frame>,         // while Writing its head is the frame being written
    queuedWrites: nat,
    loop: Loop,                // writeActive is loop != Idle
    closeAfterWrite: bool,
    closed: bool,
    accepted: seq<Frame>,
    written: seq<Frame>)

  const OPENED := Session(0, 0, 0, [], [], 0, Idle, false, false, [], [])

  datatype Event =
    | Check
    | Reserve
    | GiveBack
    | Post(frame: Frame)
    | RunPosted
    | StartLoop
    | WriteDone(ok: bool)
    | Quit                     // the client asked to leave
    | Close

  /** The head of the write loop, up to the next write or the end of the loop. */
  function LoopHead(s: Session): Session {
    if s.queue != [] && !s.closed then s.(loop := Writing)
    else s.(loop := Idle, closed := s.closed || (s.closeAfterWrite && s.queue == []))
  }

  function Step(s: Session, e: Event): Session {
    match e
    case Check => if s.closed then s else s.(checked := s.checked + 1)
    case Reserve =>
      if s.checked == 0 then s
      else
        var s' := s.(checked := s.checked - 1, queuedWrites := s.queuedWrites + 1);
        if s.queuedWrites + 1 > MAX_QUEUED_WRITES then s'.(rejecting := s.rejecting + 1)
        else s'.(reserved := s.reserved + 1)
    case GiveBack =>
      if s.rejecting == 0 || s.queuedWrites == 0 then s
      else s.(rejecting := s.rejecting - 1, queuedWrites := s.queuedWrites - 1)
    case Post(frame) =>
      if s.reserved == 0 then s
      else s.(reserved := s.reserved - 1, posted := s.posted + [frame], accepted := s.accepted + [frame])
    case RunPosted =>
      if s.posted == [] || s.queuedWrites == 0 then s
      else
        var s' := s.(posted := s.posted[1..]);
        if s.closed then s'.(queuedWrites := s.queuedWrites - 1)
        else s'.(queue := s.queue + [s.posted[0]], loop := if s.loop == Idle then Starting else s.loop)
    case StartLoop => if s.loop != Starting then s else LoopHead(s)
    case WriteDone(ok) =>
      if s.loop != Writing || s.queue == [] || s.queuedWrites == 0 then s
      else
        var s' := s.(queue := s.queue[1..], queuedWrites := s.queuedWrites - 1);
        if ok then LoopHead(s'.(written := s.written + [s.queue[0]])) else s'.(closed := true, loop := Idle)
    case Quit => s.(closeAfterWrite := true)
    case Close => s.(closed := true)
  }

  function SessionAt(es: seq<Event>, n: nat): Session
    requires n <= |es|
  {
    if n == 0 then OPENED else Step(SessionAt(es, n - 1), es[n - 1])
  }

  /** `queuedWrites` counts the frames that are somewhere on their way, and they are within the bound. */
  ghost predicate Counted(s: Session) {
    && s.queuedWrites == s.rejecting + s.reserved + |s.posted| + |s.queue|
    && s.reserved + |s.posted| + |s.queue| <= MAX_QUEUED_WRITES
  }

  /**
   Until the session closes nothing is lost or reordered: written, then queued, then posted, are
   the accepted frames.  After that what was written is still a prefix of what was accepted.
   */
  ghost predicate InOrder(s: Session) {
    && (!s.closed ==> s.accepted == s.written + s.queue + s.posted)
    && (s.closed && s.loop != Idle ==> s.written + s.queue <= s.accepted)
    && s.written <= s.accepted
  }

  /** One write at a time, of the head of the queue; an idle writer has nothing to write. */
  ghost predicate OneWriter(s: Session) {
    && (s.loop == Writing ==> s.queue != [])
    && (s.loop == Idle && !s.closed ==> s.queue == [])
  }

  ghost predicate Inv(s: Session) {
    Counted(s) && InOrder(s) && OneWriter(s)
  }

  lemma StepKeepsCounted(s: Session, e: Event)
    requires Counted(s)
    ensures Counted(Step(s, e))
  {
  }

  lemma StepKeepsOneWriter(s: Session, e: Event)
    requires OneWriter(s) && Counted(s)
    ensures OneWriter(Step(s, e))
  {
  }

  lemma PostKeepsOrder(s: Session, frame: Frame)
    requires Inv(s)
    ensures InOrder(Step(s, Post(frame)))
  {
    assert s.written + s.queue + (s.posted + [frame]) == s.written + s.queue + s.posted + [frame];
  }

  lemma RunPostedKeepsOrder(s: Session)
    requires Inv(s)
    ensures InOrder(Step(s, RunPosted))
  {
    if s.posted != [] && !s.closed {
      assert s.posted == [s.posted[0]] + s.posted[1..];
      assert s.written + s.queue + ([s.posted[0]] + s.posted[1..])
          == s.written + (s.queue + [s.posted[0]]) + s.posted[1..];
    }
  }

  lemma WriteDoneKeepsOrder(s: Session, ok: bool)
    requires Inv(s)
    ensures InOrder(Step(s, WriteDone(ok)))
  {
    if s.loop == Writing {
      var head := s.queue[0];
      assert s.queue == [head] + s.queue[1..];
      assert s.written + ([head] + s.queue[1..]) == (s.written + [head]) + s.queue[1..];
      assert s.written + ([head] + s.queue[1..]) + s.posted == (s.written + [head]) + s.queue[1..] + s.posted;
      assert s.written + [head] <= s.written + s.queue;
    }
  }

  lemma StepKeepsInv(s: Session, e: Event)
    requires Inv(s)
    ensures Inv(Step(s, e))
  {
    hide Counted, OneWriter;
    StepKeepsCounted(s, e);
    StepKeepsOneWriter(s, e);
    match e
    case Post(frame) => PostKeepsOrder(s, frame);
    case RunPosted => RunPostedKeepsOrder(s);
    case WriteDone(ok) => WriteDoneKeepsOrder(s, ok);
    case _ =>
  }

  lemma {:induction false} AlwaysInv(es: seq<Event>, n: nat)
    requires n <= |es|
    ensures Inv(SessionAt(es, n))
  {
    if n > 0 {
      AlwaysInv(es, n - 1);
      hide Inv, Step;
      StepKeepsInv(SessionAt(es, n - 1), es[n - 1]);
    }
  }

  /** An open session with nothing left to do has written every frame it accepted. */
  lemma DrainedMeansWritten(es: seq<Event>, n: nat)
    requires n <= |es|
    requires var s := SessionAt(es, n); !s.closed && s.posted == [] && s.loop == Idle
    ensures SessionAt(es, n).written == SessionAt(es, n).accepted
  {
    AlwaysInv(es, n);
  }

  /** Closed, with no write under way. */
  predicate Silent(s: Session) {
    s.closed && s.loop == Idle
  }

  lemma SilentStays(s: Session, e: Event)
    requires Silent(s)
    ensures Silent(Step(s, e)) && Step(s, e).written == s.written && Step(s, e).queue == s.queue
  {
  }

  function UnderWay(s: Session): nat { if s.loop == Writing then 1 else 0 }

  lemma ClosedFinishesOne(s: Session, e: Event)
    requires s.closed
    ensures var u := Step(s, e); u.closed && |u.written| + UnderWay(u) <= |s.written| + UnderWay(s)
  {
  }

  lemma CloseOnlyCloses(s: Session)
    ensures var u := Step(s, Close); u.closed && u.written == s.written && UnderWay(u) == UnderWay(s)
  {
  }

  /** After the session is closed at most the write already under way still completes. */
  lemma {:induction false} ClosedWritesAtMostOne(es: seq<Event>, i: nat, n: nat)
    requires i < n <= |es| && es[i] == Close
    ensures var s, u := SessionAt(es, i), SessionAt(es, n);
            u.closed && |u.written| + UnderWay(u) <= |s.written| + UnderWay(s)
    decreases n
  {
    hide Step, UnderWay;
    assert SessionAt(es, n) == Step(SessionAt(es, n - 1), es[n - 1]);
    hide SessionAt;
    if n == i + 1 {
      CloseOnlyCloses(SessionAt(es, i));
    } else {
      ClosedWritesAtMostOne(es, i, n - 1);
      ClosedFinishesOne(SessionAt(es, n - 1), es[n - 1]);
    }
  }

  lemma FailedWriteSilences(s: Session)
    requires Counted(s) && OneWriter(s) && s.loop == Writing
    ensures Silent(Step(s, WriteDone(false))) && Step(s, WriteDone(false)).written == s.written
  {
  }

  /** A failed write closes the session, and nothing is ever written after it. */
  lemma {:induction false} FailedWriteIsTheLast(es: seq<Event>, i: nat, n: nat)
    requires i < n <= |es| && es[i] == WriteDone(false) && SessionAt(es, i).loop == Writing
    ensures Silent(SessionAt(es, n)) && SessionAt(es, n).written == SessionAt(es, i).written
    decreases n
  {
    hide Step, Silent, Counted, InOrder, OneWriter;
    assert SessionAt(es, n) == Step(SessionAt(es, n - 1), es[n - 1]);
    hide SessionAt;
    if n == i + 1 {
      AlwaysInv(es, i);
      FailedWriteSilences(SessionAt(es, i));
    } else {
      FailedWriteIsTheLast(es, i, n - 1);
      SilentStays(SessionAt(es, n - 1), es[n - 1]);
    }
  }

  // ---------------------------------------------------------------- leaving

  /** The write loop closes the session by itself: the client had quit and the queue is empty. */
  predicate ClosesItself(s: Session, e: Event) {
    e in {StartLoop, WriteDone(true)} && !s.closed && Step(s, e).closed
  }

  lemma LastWords(s: Session, e: Event)
    requires Inv(s) && ClosesItself(s, e)
    ensures Step(s, e).accepted == Step(s, e).written + s.posted
  {
    hide Counted;
    if e == StartLoop {
      assert s.written + [] + s.posted == s.written + s.posted;
    } else {
      var head := s.queue[0];
      assert s.queue == [head] + s.queue[1..];
      assert s.queue[1..] == [];
      assert s.written + [head] + s.posted == s.written + ([head] + []) + s.posted;
    }
  }

  /** A session that closes itself has written all it accepted exactly when no frame is still posted. */
  lemma LastWordsWrittenIff(es: seq<Event>, n: nat, e: Event)
    requires n <= |es| && ClosesItself(SessionAt(es, n), e)
    ensures var s := SessionAt(es, n);
            var u := Step(s, e);
            u.accepted == u.written + s.posted && (u.written == u.accepted <==> s.posted == [])
  {
    AlwaysInv(es, n);
    hide Inv, Step, SessionAt;
    var s := SessionAt(es, n);
    LastWords(s, e);
    var u := Step(s, e);
    assert |u.accepted| == |u.written| + |s.posted|;
  }

  /** The answer to a quit is posted while the write of an earlier frame is about to end. */
  function Quitting(earlier: Frame, answer: Frame): seq<Event> {
    [Check, Reserve, Post(earlier), RunPosted, StartLoop,
     Check, Reserve, Post(answer), Quit,
     WriteDone(true), RunPosted]
  }

  /** One undisturbed SendRaw. */
  lemma SendRawSteps(s: Session, frame: Frame)
    requires s.checked == 0 && s.reserved == 0 && !s.closed && s.queuedWrites < MAX_QUEUED_WRITES
    ensures Step(Step(Step(s, Check), Reserve), Post(frame)) ==
            s.(posted := s.posted + [frame], accepted := s.accepted + [frame], queuedWrites := s.queuedWrites + 1)
  {
  }

  lemma FirstPost(earlier: Frame, answer: Frame)
    ensures SessionAt(Quitting(earlier, answer), 3) ==
            Session(0, 0, 0, [earlier], [], 1, Idle, false, false, [earlier], [])
  {
    var es := Quitting(earlier, answer);
    var s0, s1, s2 := SessionAt(es, 0), SessionAt(es, 1), SessionAt(es, 2);
    SendRawSteps(s0, earlier);
    hide Step;
    assert s1 == Step(s0, es[0]);
    assert s2 == Step(s1, es[1]);
    assert SessionAt(es, 3) == Step(s2, es[2]);
  }

  lemma QuittingStart(earlier: Frame, answer: Frame)
    ensures SessionAt(Quitting(earlier, answer), 5) ==
            Session(0, 0, 0, [], [earlier], 1, Writing, false, false, [earlier], [])
  {
    var es := Quitting(earlier, answer);
    FirstPost(earlier, answer);
    assert SessionAt(es, 4) == Step(SessionAt(es, 3), RunPosted);
    assert SessionAt(es, 5) == Step(SessionAt(es, 4), StartLoop);
  }

  lemma QuittingPosted(earlier: Frame, answer: Frame)
    ensures SessionAt(Quitting(earlier, answer), 9) ==
            Session(0, 0, 0, [answer], [earlier], 2, Writing, true, false, [earlier, answer], [])
  {
    var es := Quitting(earlier, answer);
    QuittingStart(earlier, answer);
    SendRawSteps(SessionAt(es, 5), answer);
    assert SessionAt(es, 6) == Step(SessionAt(es, 5), es[5]);
    assert SessionAt(es, 7) == Step(SessionAt(es, 6), es[6]);
    assert SessionAt(es, 8) == Step(SessionAt(es, 7), es[7]);
    assert SessionAt(es, 9) == Step(SessionAt(es, 8), Quit);
  }

  /** The answer to a quit can be dropped: the loop ends on the earlier frame and closes first. */
  lemma QuitAnswerCanBeLost(earlier: Frame, answer: Frame)
    ensures var s := SessionAt(Quitting(earlier, answer), 11);
            s.closed && s.posted == [] && s.queue == [] && s.accepted == [earlier, answer] && s.written == [earlier]
  {
    var es := Quitting(earlier, answer);
    QuittingPosted(earlier, answer);
    assert SessionAt(es, 10) == Step(SessionAt(es, 9), WriteDone(true));
    assert SessionAt(es, 11) == Step(SessionAt(es, 10), RunPosted);
  }

  // ---------------------------------------------------------------- the session object

  class GatewaySession {
    var posted: seq<Frame>
    var writeQueue: seq<Frame>
    var queuedWrites: nat
    var loop: Loop
    var closeAfterWrite: bool
    var closed: bool
    ghost var accepted: seq<Frame>
    ghost var written: seq<Frame>

    /** No SendRaw is half way through. */
    ghost function State(): Session
      reads this
    {
      Session(0, 0, 0, posted, writeQueue, queuedWrites, loop, closeAfterWrite, closed, accepted, written)
    }

    ghost predicate Valid()
      reads this
    {
      Inv(State())
    }

    constructor ()
      ensures Valid() && State() == OPENED
    {
      posted, writeQueue, queuedWrites, loop, closeAfterWrite, closed := [], [], 0, Idle, false, false;
      accepted, written := [], [];
    }

    /** True exactly when the frame was taken; over the bound the session is closed as well. */
    method SendRaw(frame: Frame) returns (ok: bool)
      requires Valid()
      modifies this
      ensures Valid()
      ensures ok == (!old(closed) && |old(posted)| + |old(writeQueue)| < MAX_QUEUED_WRITES)
      ensures State() ==
              if ok then Step(Step(Step(old(State()), Check), Reserve), Post(frame))
              else if old(closed) then old(State())
              else Step(Step(Step(Step(old(State()), Check), Reserve), GiveBack), Event.Close)
    {
      if closed {
        return false;
      }
      queuedWrites := queuedWrites + 1;
      if queuedWrites > MAX_QUEUED_WRITES {
        queuedWrites := queuedWrites - 1;
        closed := true;
        return false;
      }
      PostKeepsOrder(State().(reserved := 1, queuedWrites := queuedWrites), frame);
      posted := posted + [frame];
      accepted := accepted + [frame];
      return true;
    }

    /** What SendRaw posted, run on the strand. */
    method RunPostedWrite()
      requires Valid() && posted != []
      modifies this
      ensures Valid() && State() == Step(old(State()), RunPosted)
    {
      StepKeepsInv(State(), RunPosted);
      var frame := posted[0];
      posted := posted[1..];
      if closed {
        queuedWrites := queuedWrites - 1;
        return;
      }
      writeQueue := writeQueue + [frame];
      if loop == Idle {
        loop := Starting;
      }
    }

    /** The end of one write inside the loop, before the loop's test is made again. */
    method EndWrite(ok: bool)
      requires Inv(LoopHead(State())) && writeQueue != [] && !closed
      modifies `writeQueue, `queuedWrites, `closed, `written
      ensures writeQueue == old(writeQueue)[1..] && closed == !ok
      ensures LoopHead(State()) == Step(LoopHead(old(State())), Event.WriteDone(ok))
      ensures Inv(LoopHead(State()))
    {
      StepKeepsInv(LoopHead(State()), Event.WriteDone(ok));
      hide InOrder;
      var frame := writeQueue[0];
      writeQueue := writeQueue[1..];
      queuedWrites := queuedWrites - 1;
      if ok {
        written := written + [frame];
      } else {
        closed := true;
      }
    }

    /** `outcomes` answers the writes in turn; the loop runs with nothing in between. */
    method WriteLoop(outcomes: seq<bool>) returns (used: nat)
      requires Valid() && loop == Starting && |outcomes| >= |writeQueue|
      modifies this
      ensures Valid() && used <= |outcomes| && loop == Idle && (writeQueue == [] || closed)
      ensures State() == AfterWrites(Step(old(State()), StartLoop), outcomes[..used])
    {
      StepKeepsInv(State(), StartLoop);
      hide Inv;
      ghost var started := LoopHead(State());
      used := 0;
      while writeQueue != [] && !closed
        invariant used <= |outcomes| && (closed || |outcomes| - used >= |writeQueue|)
        invariant loop == Starting && Inv(LoopHead(State()))
        invariant LoopHead(State()) == AfterWrites(started, outcomes[..used])
        decreases |writeQueue|
      {
        assert outcomes[..used + 1][..used] == outcomes[..used];
        EndWrite(outcomes[used]);
        used := used + 1;
      }
      loop := Idle;
      if closeAfterWrite && writeQueue == [] {
        closed := true;
      }
    }
  }

  /** The state after the writes have ended with the given outcomes. */
  function AfterWrites(s: Session, outcomes: seq<bool>): Session
    decreases |outcomes|
  {
    if outcomes == [] then s
    else Step(AfterWrites(s, outcomes[..|outcomes| - 1]), WriteDone(outcomes[|outcomes| - 1]))
  }
}
