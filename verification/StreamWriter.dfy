/**
 The single-writer queue both ends of a gateway stream use: a deque, one frame in flight, a bound
 of 4096 waiting frames.  `closed` is the flag the link calls stopped and the reactor finishing.
 */
module StreamWriter {
  import opened Options

  type Frame = string

  const MAX_STREAM_QUEUE := 4096

  datatype Writer = Writer(
    queue: seq<Frame>,
    inFlight: Option<Frame>,      // the frame handed to the transport, if any
    closed: bool,
    failed: Option<Frame>,        // the frame whose write failed, which ends the stream
    accepted: seq<Frame>,
    written: seq<Frame>)

  const EMPTY := Writer([], None, false, None, [], [])

  datatype Event = Enqueue(frame: Frame) | WriteDone(ok: bool) | Close

  predicate Takes(w: Writer) {
    !w.closed && |w.queue| < MAX_STREAM_QUEUE
  }

  function Step(w: Writer, e: Event): Writer {
    match e
    case Enqueue(frame) =>
      if !Takes(w) then w
      else
        var w' := w.(accepted := w.accepted + [frame]);
        if w.inFlight.None? then w'.(queue := (w.queue + [frame])[1..], inFlight := Some((w.queue + [frame])[0]))
        else w'.(queue := w.queue + [frame])
    case WriteDone(ok) =>
      if w.inFlight.None? || w.failed.Some? then w             // no write is outstanding
      else if !ok then w.(closed := true, failed := w.inFlight)
      else
        var w' := w.(written := w.written + [w.inFlight.value]);
        if w.queue == [] then w'.(inFlight := None) else w'.(queue := w.queue[1..], inFlight := Some(w.queue[0]))
    case Close => w.(closed := true)
  }

  function WriterAt(es: seq<Event>, n: nat): Writer
    requires n <= |es|
  {
    if n == 0 then EMPTY else Step(WriterAt(es, n - 1), es[n - 1])
  }

  function InFlight(w: Writer): seq<Frame> {
    if w.inFlight.Some? then [w.inFlight.value] else []
  }

  /**
   The writer is a bounded first-in first-out channel: written, then in flight, then queued, are
   the accepted frames in order; a writer with nothing in flight has nothing queued.
   */
  ghost predicate Fifo(w: Writer) {
    && w.accepted == w.written + InFlight(w) + w.queue
    && (w.inFlight.None? ==> w.queue == [])
    && |w.queue| <= MAX_STREAM_QUEUE
    && (w.failed.Some? ==> w.closed && w.failed == w.inFlight)
  }

  lemma StepKeepsFifo(w: Writer, e: Event)
    requires Fifo(w)
    ensures Fifo(Step(w, e))
  {
    match e
    case Enqueue(frame) =>
      if w.inFlight.None? {
        assert [frame][1..] == [] && w.queue + [frame] == [frame];
        assert w.written + [frame] + [] == w.written + [] + [] + [frame];
      } else {
        assert w.written + InFlight(w) + (w.queue + [frame]) == w.written + InFlight(w) + w.queue + [frame];
      }
    case WriteDone(ok) =>
      if w.inFlight.Some? && w.queue != [] {
        assert w.queue == [w.queue[0]] + w.queue[1..];
        assert w.written + [w.inFlight.value] + ([w.queue[0]] + w.queue[1..])
            == (w.written + [w.inFlight.value]) + [w.queue[0]] + w.queue[1..];
      }
    case Close =>
  }

  lemma {:induction false} AlwaysFifo(es: seq<Event>, n: nat)
    requires n <= |es|
    ensures Fifo(WriterAt(es, n))
  {
    if n > 0 {
      AlwaysFifo(es, n - 1);
      hide Fifo, Step;
      StepKeepsFifo(WriterAt(es, n - 1), es[n - 1]);
    }
  }

  /** A frame is refused exactly when the stream is closed or 4096 frames already wait. */
  lemma RefusedIff(es: seq<Event>, n: nat, frame: Frame)
    requires n <= |es|
    ensures var w := WriterAt(es, n);
            var full := |w.accepted| == |w.written| + MAX_STREAM_QUEUE + 1;
            Step(w, Enqueue(frame)).accepted == w.accepted <==> w.closed || full
  {
    AlwaysFifo(es, n);
    var w := WriterAt(es, n);
    assert |w.accepted| == |w.written| + |InFlight(w)| + |w.queue|;
    assert |w.accepted + [frame]| == |w.accepted| + 1;
  }

  /** What has been written is never taken back or reordered. */
  lemma {:induction false} WrittenGrows(es: seq<Event>, i: nat, j: nat)
    requires i <= j <= |es|
    ensures WriterAt(es, i).written <= WriterAt(es, j).written <= WriterAt(es, j).accepted
  {
    AlwaysFifo(es, j);
    if i < j {
      WrittenGrows(es, i, j - 1);
    }
  }

  /** After so many successful writes. */
  function AfterWrites(w: Writer, n: nat): Writer {
    if n == 0 then w else Step(AfterWrites(w, n - 1), WriteDone(true))
  }

  lemma WriteAdvances(w: Writer)
    requires Fifo(w) && w.failed.None? && |w.written| < |w.accepted|
    ensures var u := Step(w, WriteDone(true));
            u.written == w.accepted[..|w.written| + 1] && u.accepted == w.accepted && u.failed.None?
  {
    var head := w.inFlight.value;
    assert w.accepted == w.written + ([head] + w.queue);
    assert w.accepted[..|w.written| + 1] == w.written + [head];
  }

  lemma {:induction false} WritesAdvance(w: Writer, n: nat)
    requires Fifo(w) && w.failed.None? && |w.written| + n <= |w.accepted|
    ensures var u := AfterWrites(w, n);
            Fifo(u) && u.failed.None? && u.accepted == w.accepted && u.written == w.accepted[..|w.written| + n]
  {
    if n == 0 {
      assert w.accepted[..|w.written|] == w.written;
    } else {
      WritesAdvance(w, n - 1);
      hide Fifo, Step;
      StepKeepsFifo(AfterWrites(w, n - 1), WriteDone(true));
      WriteAdvances(AfterWrites(w, n - 1));
    }
  }

  /** Nothing accepted is stuck: as long as writes succeed, as many as are outstanding empty the writer. */
  lemma OutstandingWritesDrain(es: seq<Event>, n: nat)
    requires n <= |es| && WriterAt(es, n).failed.None?
    ensures var w := WriterAt(es, n);
            |w.written| <= |w.accepted| && AfterWrites(w, |w.accepted| - |w.written|).written == w.accepted
  {
    AlwaysFifo(es, n);
    var w := WriterAt(es, n);
    assert |w.accepted| >= |w.written|;
    hide Fifo, WriterAt;
    WritesAdvance(w, |w.accepted| - |w.written|);
    assert w.accepted[..|w.accepted|] == w.accepted;
  }

  lemma ClosedTakesNone(w: Writer, e: Event)
    requires w.closed
    ensures Step(w, e).closed && Step(w, e).accepted == w.accepted
  {
  }

  /** Nothing is accepted once the stream is being closed. */
  lemma {:induction false} NothingAcceptedAfterClose(es: seq<Event>, i: nat, n: nat)
    requires i < n <= |es| && es[i] == Close
    ensures WriterAt(es, n).closed && WriterAt(es, n).accepted == WriterAt(es, i).accepted
    decreases n
  {
    assert WriterAt(es, n) == Step(WriterAt(es, n - 1), es[n - 1]);
    if n > i + 1 {
      NothingAcceptedAfterClose(es, i, n - 1);
      hide Step, WriterAt;
      ClosedTakesNone(WriterAt(es, n - 1), es[n - 1]);
    }
  }

  lemma FailedStays(w: Writer, e: Event)
    requires w.failed.Some? && w.closed
    ensures var u := Step(w, e); u.failed.Some? && u.closed && u.written == w.written && u.accepted == w.accepted
  {
  }

  /** A failed write is the last: from then on nothing is accepted and nothing more is written. */
  lemma {:induction false} FailedWriteIsTheLast(es: seq<Event>, i: nat, n: nat)
    requires i < n <= |es| && es[i] == WriteDone(false) && WriterAt(es, i).inFlight.Some?
    ensures var w, u := WriterAt(es, i), WriterAt(es, n);
            u.failed.Some? && u.closed && u.written == w.written && u.accepted == w.accepted
    decreases n
  {
    AlwaysFifo(es, i);
    if n == i + 1 {
      assert WriterAt(es, n) == Step(WriterAt(es, i), es[i]);
    } else {
      FailedWriteIsTheLast(es, i, n - 1);
      assert WriterAt(es, n) == Step(WriterAt(es, n - 1), es[n - 1]);
      hide WriterAt, Fifo;
      FailedStays(WriterAt(es, n - 1), es[n - 1]);
    }
  }

  class StreamQueue {
    var writeQueue: seq<Frame>
    var writeFrame: Frame
    var writeInFlight: bool
    var closed: bool
    ghost var broken: bool
    ghost var accepted: seq<Frame>
    ghost var written: seq<Frame>

    ghost function State(): Writer
      reads this
    {
      Writer(writeQueue, if writeInFlight then Some(writeFrame) else None, closed,
             if broken then Some(writeFrame) else None, accepted, written)
    }

    ghost predicate Valid()
      reads this
    {
      Fifo(State())
    }

    constructor ()
      ensures Valid() && State() == EMPTY
    {
      writeQueue, writeFrame, writeInFlight, closed := [], "", false, false;
      broken, accepted, written := false, [], [];
    }

    method Enqueue(frame: Frame) returns (ok: bool)
      requires Valid()
      modifies this
      ensures Valid() && State() == Step(old(State()), Event.Enqueue(frame)) && ok == Takes(old(State()))
    {
      StepKeepsFifo(State(), Event.Enqueue(frame));
      if closed || |writeQueue| >= MAX_STREAM_QUEUE {
        return false;
      }
      writeQueue := writeQueue + [frame];
      accepted := accepted + [frame];
      if !writeInFlight {
        writeInFlight := true;
        writeFrame := writeQueue[0];
        writeQueue := writeQueue[1..];
      }
      return true;
    }

    /** The transport reports the end of the write of `writeFrame`. */
    method OnWriteDone(ok: bool)
      requires Valid() && writeInFlight && !broken
      modifies this
      ensures Valid() && State() == Step(old(State()), Event.WriteDone(ok))
    {
      StepKeepsFifo(State(), Event.WriteDone(ok));
      if !ok {
        closed, broken := true, true;
        return;
      }
      written := written + [writeFrame];
      if writeQueue != [] {
        writeFrame := writeQueue[0];
        writeQueue := writeQueue[1..];
      } else {
        writeInFlight := false;
      }
    }
  }
}
