/**
 Whether the head of a queue is on its way.  A head is written and timed when it becomes the head
 while the client is ready; one that becomes the head while the client is closing is not.
 */
module RequestTimers {
  import opened RequestQueues

  ghost predicate HeadLive(c: Client, kind: nat) {
    var queue := QueueOf(c.queues, kind);
    queue != [] && queue[0] in c.written && kind in c.armed
  }

  /** An answer or a timer of this type takes the head of its queue. */
  predicate TakesHead(c: Client, e: Event, kind: nat) {
    && QueueOf(c.queues, kind) != []
    && ((e == Response(kind) && c.socket == Up) || (e == Timeout(kind) && kind in c.armed))
  }

  /**
   The types whose head was last taken while the client was not ready and another request of the
   type was waiting; a disconnect settles them all.
   */
  ghost function Stranded(es: seq<Event>, n: nat): set<nat>
    requires n <= |es|
  {
    if n == 0 then {} else StrandedNext(Stranded(es, n - 1), ClientAt(es, n - 1), es[n - 1])
  }

  ghost function StrandedNext(before: set<nat>, c: Client, e: Event): set<nat> {
    match e
    case Response(kind) => AfterTake(before, c, e, kind)
    case Timeout(kind) => AfterTake(before, c, e, kind)
    case SocketDown(order, _) => if c.socket == Up && Enumerates(order, c.queues) then {} else before
    case _ => before
  }

  ghost function AfterTake(before: set<nat>, c: Client, e: Event, kind: nat): set<nat> {
    if !TakesHead(c, e, kind) then before
    else if |QueueOf(c.queues, kind)| > 1 && c.connection != Ready then before + {kind}
    else before - {kind}
  }

  ghost predicate Tracks(stranded: set<nat>, c: Client) {
    && (forall kind :: kind in c.queues ==> if kind in stranded then kind !in c.armed else HeadLive(c, kind))
    && (forall kind :: kind in stranded ==> kind in c.queues)
    && (c.connection !in {Ready, Closing} ==> c.queues == map[])
  }

  lemma TakeTracks(stranded: set<nat>, c: Client, kind: nat)
    requires Tracks(stranded, c) && QueueOf(c.queues, kind) != []
    ensures Tracks(if |QueueOf(c.queues, kind)| > 1 && c.connection != Ready then stranded + {kind} else stranded - {kind},
                   Dequeued(c, kind))
  {
    var u, queue := Dequeued(c, kind), QueueOf(c.queues, kind);
    if |queue| > 1 {
      assert u.queues == c.queues[kind := queue[1..]];
    }
    forall k | k in u.queues && k != kind && k !in stranded
      ensures HeadLive(u, k)
    {
      assert HeadLive(c, k);
    }
  }

  lemma IssueTracks(stranded: set<nat>, c: Client, serviceId: nat, serializes: bool)
    requires Tracks(stranded, c) && QueuesSorted(c.queues)
    ensures Tracks(stranded, Step(c, Issue(serviceId, serializes)))
  {
    hide Sorted;
    var u := Step(c, Issue(serviceId, serializes));
    if c.connection == Ready && serializes {
      var kind, r := ResponseFor(serviceId), Request(c.issued, serviceId);
      assert QueueOf(u.queues, kind) == QueueOf(c.queues, kind) + [r];
      forall k | k in u.queues && k !in stranded
        ensures HeadLive(u, k)
      {
        if k in c.queues {
          assert HeadLive(c, k);
        }
      }
    }
  }

  lemma StepTracks(stranded: set<nat>, c: Client, e: Event)
    requires Tracks(stranded, c) && Inv(c)
    ensures Tracks(StrandedNext(stranded, c, e), Step(c, e))
  {
    hide Conserved, Numbered, Classified, Dequeued, HeadLive, Sorted;
    match e
    case Issue(serviceId, serializes) => IssueTracks(stranded, c, serviceId, serializes);
    case Response(kind) =>
      if TakesHead(c, e, kind) {
        TakeTracks(stranded, c, kind);
        SameTracks(StrandedNext(stranded, c, e), Dequeued(c, kind), Step(c, e));
      }
    case Timeout(kind) =>
      if TakesHead(c, e, kind) {
        TakeTracks(stranded, c, kind);
      } else if kind in c.armed {
        IdleTimerTracks(stranded, c, kind);
      }
    case SocketDown(order, reconnect) => SameTracks(stranded, c, c.(socket := Down));
    case Login => SameTracks(stranded, c, c.(connection := Ready));
    case Close => SameTracks(stranded, c, Step(c, e));
    case StartSocket(_) => SameTracks(stranded, c, Step(c, e));
    case OpenFailed => SameTracks(stranded, c, Step(c, e));
    case SocketUp => SameTracks(stranded, c, Step(c, e));
  }

  lemma SameTracks(stranded: set<nat>, c: Client, u: Client)
    requires Tracks(stranded, c) && u.queues == c.queues && u.written == c.written && u.armed == c.armed
    requires u.connection !in {Ready, Closing} ==> u.queues == map[]
    ensures Tracks(stranded, u)
  {
  }

  lemma IdleTimerTracks(stranded: set<nat>, c: Client, kind: nat)
    requires Tracks(stranded, c) && QueueOf(c.queues, kind) == [] && QueuesSorted(c.queues)
    ensures Tracks(stranded, c.(armed := c.armed - {kind}))
  {
    hide Sorted;
    var u := c.(armed := c.armed - {kind});
    forall k | k in u.queues && k !in stranded
      ensures HeadLive(u, k)
    {
      assert HeadLive(c, k);
    }
  }

  lemma {:induction false} TracksAlways(es: seq<Event>, n: nat)
    requires n <= |es|
    ensures Tracks(Stranded(es, n), ClientAt(es, n))
  {
    hide Inv, Step, StrandedNext;
    if n > 0 {
      TracksAlways(es, n - 1);
      RequestsConserved(es, n - 1);
      hide Tracks;
      StepTracks(Stranded(es, n - 1), ClientAt(es, n - 1), es[n - 1]);
    }
  }

  /**
   In every run: the head of a queue is written and has its timer running exactly when the last
   head of its type was not taken, by an answer or a timer, while the client was not ready.
   */
  lemma HeadLiveIff(es: seq<Event>, n: nat, kind: nat)
    requires n <= |es| && QueueOf(ClientAt(es, n).queues, kind) != []
    ensures HeadLive(ClientAt(es, n), kind) <==> kind !in Stranded(es, n)
  {
    hide ClientAt, Stranded;
    TracksAlways(es, n);
  }

  /** A login answer while the client is closing, after it stranded a request. */
  ghost predicate BadLogin(es: seq<Event>, k: nat)
    requires k < |es|
  {
    es[k] == Login && ClientAt(es, k).socket == Up && ClientAt(es, k).connection == Closing && Stranded(es, k) != {}
  }

  lemma StrandsOnlyWhileClosing(stranded: set<nat>, c: Client, e: Event)
    requires Tracks(stranded, c) && Inv(c) && (c.connection != Closing ==> stranded == {})
    requires Step(c, e).connection != Closing && StrandedNext(stranded, c, e) != {}
    ensures e == Login && c.socket == Up && c.connection == Closing && stranded != {}
  {
    hide Conserved, Numbered, Classified, HeadLive, QueuesSorted;
    StepTracks(stranded, c, e);
    assert forall kind :: kind in stranded ==> kind in c.queues;
  }

  /** Without a bad login no head is stranded except while the client is closing. */
  lemma {:induction false} NoneStranded(es: seq<Event>, n: nat)
    requires n <= |es| && forall k :: 0 <= k < n ==> !BadLogin(es, k)
    ensures ClientAt(es, n).connection != Closing ==> Stranded(es, n) == {}
  {
    hide Inv, Step, StrandedNext, Tracks;
    if n > 0 {
      NoneStranded(es, n - 1);
      var c, before, e := ClientAt(es, n - 1), Stranded(es, n - 1), es[n - 1];
      assert ClientAt(es, n) == Step(c, e) && Stranded(es, n) == StrandedNext(before, c, e);
      TracksAlways(es, n - 1);
      RequestsConserved(es, n - 1);
      assert !BadLogin(es, n - 1);
      hide ClientAt, Stranded;
      if Step(c, e).connection != Closing && StrandedNext(before, c, e) != {} {
        StrandsOnlyWhileClosing(before, c, e);
      }
    }
  }

  /** So while the client is ready the head of every queue is written and timed, unless a bad login came. */
  lemma ReadyHeadsLive(es: seq<Event>, n: nat, kind: nat)
    requires n <= |es| && forall k :: 0 <= k < n ==> !BadLogin(es, k)
    requires ClientAt(es, n).connection == Ready && QueueOf(ClientAt(es, n).queues, kind) != []
    ensures HeadLive(ClientAt(es, n), kind)
  {
    hide HeadLive, ClientAt, Stranded, BadLogin;
    NoneStranded(es, n);
    HeadLiveIff(es, n, kind);
  }

  ghost predicate Dead(c: Client, kind: nat) {
    QueueOf(c.queues, kind) != [] && !HeadLive(c, kind)
  }

  /** A bad login makes the client ready with a head that is neither written nor timed. */
  lemma BadLoginBreaks(es: seq<Event>, k: nat) returns (kind: nat)
    requires k < |es| && BadLogin(es, k)
    ensures ClientAt(es, k + 1).connection == Ready && Dead(ClientAt(es, k + 1), kind)
  {
    RequestsConserved(es, k);
    TracksAlways(es, k);
    var c := ClientAt(es, k);
    kind :| kind in Stranded(es, k);
    assert ClientAt(es, k + 1) == Step(c, Login);
    hide ClientAt, Stranded, Inv, Step, Tracks, Dead;
    LoginStrands(Stranded(es, k), c, kind);
  }

  lemma LoginStrands(stranded: set<nat>, c: Client, kind: nat)
    requires Tracks(stranded, c) && Inv(c) && kind in stranded && c.socket == Up
    ensures Step(c, Login).connection == Ready && Dead(Step(c, Login), kind)
  {
    hide Conserved, Numbered, Classified, Sorted;
  }

  /** Two requests of one type, a close, the first answer, and then a second login answer. */
  function StrandedRun(serviceId: nat): seq<Event> {
    [StartSocket(0), SocketUp, Login, Issue(serviceId, true), Issue(serviceId, true),
     Close, Response(ResponseFor(serviceId)), Login]
  }

  lemma StrandedStart(serviceId: nat)
    ensures var c := ClientAt(StrandedRun(serviceId), 3);
            c == START.(socket := Up, connection := Ready)
  {
    var es := StrandedRun(serviceId);
    assert ClientAt(es, 0) == START;
    assert ClientAt(es, 1) == Step(ClientAt(es, 0), es[0]);
    assert ClientAt(es, 2) == Step(ClientAt(es, 1), es[1]);
    assert ClientAt(es, 3) == Step(ClientAt(es, 2), es[2]);
  }

  lemma StrandedQueued(serviceId: nat)
    ensures var c := ClientAt(StrandedRun(serviceId), 5);
            var kind := ResponseFor(serviceId);
            && c.socket == Up && c.connection == Ready && c.written == [Request(0, serviceId)]
            && c.queues == map[kind := [Request(0, serviceId), Request(1, serviceId)]]
  {
    var es := StrandedRun(serviceId);
    StrandedStart(serviceId);
    var kind, r0, r1 := ResponseFor(serviceId), Request(0, serviceId), Request(1, serviceId);
    var c3 := ClientAt(es, 3);
    var c4 := Step(c3, Issue(serviceId, true));
    assert ClientAt(es, 4) == c4;
    assert QueueOf(c3.queues, kind) + [r0] == [r0];
    assert c4.queues == map[kind := [r0]] && c4.written == [r0] && c4.connection == Ready && c4.issued == 1;
    var c5 := Step(c4, Issue(serviceId, true));
    assert ClientAt(es, 5) == c5;
    assert QueueOf(c4.queues, kind) + [r1] == [r0, r1];
    assert c5.queues == map[kind := [r0]][kind := [r0, r1]] == map[kind := [r0, r1]];
  }

  /** Then the client is ready with a request that is neither on the wire nor timed. */
  lemma BadLoginStrands(serviceId: nat)
    ensures var c := ClientAt(StrandedRun(serviceId), 8);
            var kind := ResponseFor(serviceId);
            && c.connection == Ready && QueueOf(c.queues, kind) == [Request(1, serviceId)]
            && Request(1, serviceId) !in c.written && kind !in c.armed
  {
    hide Enumerates, Drained;
    var es := StrandedRun(serviceId);
    StrandedQueued(serviceId);
    var kind := ResponseFor(serviceId);
    assert ClientAt(es, 6) == Step(ClientAt(es, 5), Close);
    var c6 := ClientAt(es, 6);
    assert ClientAt(es, 7) == Step(c6, Response(kind));
    assert QueueOf(c6.queues, kind)[1..] == [Request(1, serviceId)];
    assert ClientAt(es, 8) == Step(ClientAt(es, 7), Login);
  }
}
