/** What the client has put on the wire: one request per response type, the head of its queue. */
module RequestWrites {
  import opened RequestQueues

  // ---------------------------------------------------------------- distinct requests

  ghost predicate Increasing(rs: seq<Request>) {
    forall i, j :: 0 <= i < j < |rs| ==> rs[i].id < rs[j].id
  }

  lemma {:induction false} OfMember(rs: seq<Request>, kind: nat, r: Request)
    ensures r in Of(rs, kind) <==> r in rs && ResponseFor(r.serviceId) == kind
    decreases |rs|
  {
    if rs != [] {
      OfMember(rs[1..], kind, r);
      assert rs == [rs[0]] + rs[1..];
    }
  }

  lemma {:induction false} OfIncreasing(rs: seq<Request>, kind: nat)
    requires Increasing(rs)
    ensures Increasing(Of(rs, kind))
    decreases |rs|
  {
    if rs != [] {
      var tail := Of(rs[1..], kind);
      OfIncreasing(rs[1..], kind);
      forall k | 0 <= k < |tail|
        ensures rs[0].id < tail[k].id
      {
        OfMember(rs[1..], kind, tail[k]);
      }
    }
  }

  /** A waiting request is not among the resolved ones, and only the first of its queue is the head. */
  lemma WaitingUnresolved(c: Client, kind: nat, i: nat)
    requires Inv(c) && i < |QueueOf(c.queues, kind)|
    ensures QueueOf(c.queues, kind)[i] !in c.resolved
    ensures i > 0 ==> QueueOf(c.queues, kind)[i] != QueueOf(c.queues, kind)[0]
    ensures ResponseFor(QueueOf(c.queues, kind)[i].serviceId) == kind && QueueOf(c.queues, kind)[i].id < c.issued
  {
    assert Conserved(c.resolved, c.queues, c.accepted, kind);
    var queue, done, all := QueueOf(c.queues, kind), Of(c.resolved, kind), Of(c.accepted, kind);
    assert Increasing(c.accepted);
    OfIncreasing(c.accepted, kind);
    assert all[|done| + i] == queue[i] && all[|done|] == queue[0];
    OfMember(c.resolved, kind, queue[i]);
    forall k | 0 <= k < |done|
      ensures done[k] != queue[i]
    {
      assert all[k] == done[k];
    }
    OfMember(c.accepted, kind, queue[i]);
  }

  // ---------------------------------------------------------------- queued, answered or failed

  ghost predicate Waiting(c: Client, id: nat) {
    exists r :: WaitingAs(c, r) && r.id == id
  }

  ghost predicate WaitingAs(c: Client, r: Request) {
    r in QueueOf(c.queues, ResponseFor(r.serviceId))
  }

  /** Refused at once, or taken from its queue without an answer. */
  ghost predicate FailedRequest(c: Client, id: nat) {
    id in c.refused || (Among(c.resolved, id) && id !in c.answered)
  }

  /** Whatever was answered had been taken from its queue. */
  ghost predicate AnsweredInv(c: Client) {
    forall id :: id in c.answered ==> Among(c.resolved, id)
  }

  lemma AmongGrows(rs: seq<Request>, more: seq<Request>, id: nat)
    requires Among(rs, id)
    ensures Among(rs + more, id)
  {
    var i :| 0 <= i < |rs| && rs[i].id == id;
    assert (rs + more)[i].id == id;
  }

  lemma StepKeepsAnswered(c: Client, e: Event)
    requires AnsweredInv(c)
    ensures AnsweredInv(Step(c, e))
  {
    var u := Step(c, e);
    forall id | id in c.answered
      ensures Among(u.resolved, id)
    {
      ResolvedGrows(c, e);
      AmongGrows(c.resolved, u.resolved[|c.resolved|..], id);
      assert u.resolved == c.resolved + u.resolved[|c.resolved|..];
    }
    if e.Response? && c.socket == Up && QueueOf(c.queues, e.kind) != [] {
      DequeuedShape(c, e.kind, e.kind);
      assert u.resolved[|c.resolved|].id == QueueOf(c.queues, e.kind)[0].id;
    }
    hide Among, Dequeued;
  }

  lemma ResolvedGrows(c: Client, e: Event)
    ensures c.resolved <= Step(c, e).resolved
  {
    hide Drained, Enumerates;
  }

  lemma {:induction false} AnsweredAlways(es: seq<Event>, n: nat)
    requires n <= |es|
    ensures AnsweredInv(ClientAt(es, n))
  {
    hide Step;
    if n > 0 {
      AnsweredAlways(es, n - 1);
      hide AnsweredInv;
      StepKeepsAnswered(ClientAt(es, n - 1), es[n - 1]);
    }
  }

  /** A resolved request was accepted. */
  lemma ResolvedAccepted(c: Client, r: Request)
    requires Inv(c) && r in c.resolved
    ensures r in c.accepted
  {
    var kind := ResponseFor(r.serviceId);
    assert Conserved(c.resolved, c.queues, c.accepted, kind);
    OfMember(c.resolved, kind, r);
    OfMember(c.accepted, kind, r);
    hide Inv, Of;
  }

  lemma WaitingAccepted(c: Client, r: Request)
    requires Inv(c) && WaitingAs(c, r)
    ensures r in c.accepted && r !in c.resolved
  {
    var kind := ResponseFor(r.serviceId);
    assert Conserved(c.resolved, c.queues, c.accepted, kind);
    var queue := QueueOf(c.queues, kind);
    var i :| 0 <= i < |queue| && queue[i] == r;
    WaitingUnresolved(c, kind, i);
    OfMember(c.accepted, kind, r);
    hide Inv, Of;
  }

  lemma AcceptedOnce(c: Client, r: Request, s: Request)
    requires Inv(c) && r in c.accepted && s in c.accepted && r.id == s.id
    ensures r == s && r.id !in c.refused && r.id < c.issued
  {
    hide QueuesSorted, Conserved, Classified;
    var i :| 0 <= i < |c.accepted| && c.accepted[i] == r;
    var j :| 0 <= j < |c.accepted| && c.accepted[j] == s;
  }

  /** An accepted request waits or is resolved. */
  lemma AcceptedFate(c: Client, id: nat)
    requires Inv(c) && Among(c.accepted, id)
    ensures Waiting(c, id) || Among(c.resolved, id)
  {
    var i :| 0 <= i < |c.accepted| && c.accepted[i].id == id;
    var r := c.accepted[i];
    var kind := ResponseFor(r.serviceId);
    assert Conserved(c.resolved, c.queues, c.accepted, kind);
    OfMember(c.accepted, kind, r);
    OfMember(c.resolved, kind, r);
    hide Inv, Of;
    if r in c.resolved {
      var j :| 0 <= j < |c.resolved| && c.resolved[j] == r;
      assert c.resolved[j].id == id;
    } else {
      assert WaitingAs(c, r);
    }
  }

  /** A waiting request is neither resolved nor refused, whatever its number is shared with. */
  lemma WaitingExclusive(c: Client, id: nat)
    requires Inv(c) && Waiting(c, id)
    ensures id < c.issued && id !in c.refused && !Among(c.resolved, id)
  {
    var r :| WaitingAs(c, r) && r.id == id;
    WaitingAccepted(c, r);
    AcceptedOnce(c, r, r);
    forall j | 0 <= j < |c.resolved|
      ensures c.resolved[j].id != id
    {
      if c.resolved[j].id == id {
        ResolvedAccepted(c, c.resolved[j]);
        AcceptedOnce(c, r, c.resolved[j]);
      }
    }
    hide Inv;
  }

  lemma ResolvedExclusive(c: Client, id: nat)
    requires Inv(c) && Among(c.resolved, id)
    ensures id < c.issued && id !in c.refused
  {
    var i :| 0 <= i < |c.resolved| && c.resolved[i].id == id;
    ResolvedAccepted(c, c.resolved[i]);
    AcceptedOnce(c, c.resolved[i], c.resolved[i]);
  }

  /**
   In every run the requests made are the disjoint union of the waiting, the answered and the
   failed ones, and only requests that were made are in any of the three.
   */
  lemma RequestFates(es: seq<Event>, n: nat, id: nat)
    requires n <= |es|
    ensures var c := ClientAt(es, n);
            && (id < c.issued <==> Waiting(c, id) || id in c.answered || FailedRequest(c, id))
            && !(Waiting(c, id) && id in c.answered)
            && !(Waiting(c, id) && FailedRequest(c, id))
            && !(id in c.answered && FailedRequest(c, id))
  {
    hide ClientAt, Inv, Waiting;
    var c := ClientAt(es, n);
    RequestsConserved(es, n);
    AnsweredAlways(es, n);
    Fate(c, id);
    if Waiting(c, id) {
      WaitingExclusive(c, id);
    }
    if Among(c.resolved, id) {
      ResolvedExclusive(c, id);
    }
  }

  lemma Fate(c: Client, id: nat)
    requires Inv(c)
    ensures id < c.issued ==> id in c.refused || Waiting(c, id) || Among(c.resolved, id)
    ensures id in c.refused ==> id < c.issued
  {
    hide QueuesSorted, Conserved, Among;
    if Among(c.accepted, id) {
      AcceptedFate(c, id);
    }
  }

  /** A waiting request has not been answered. */
  lemma WaitingUnanswered(c: Client, kind: nat)
    requires Inv(c) && AnsweredInv(c) && QueueOf(c.queues, kind) != []
    ensures QueueOf(c.queues, kind)[0].id !in c.answered
  {
    var head := QueueOf(c.queues, kind)[0];
    WaitingUnresolved(c, kind, 0);
    assert WaitingAs(c, head);
    assert Waiting(c, head.id);
    WaitingExclusive(c, head.id);
  }

  lemma HeadTaken(c: Client, kind: nat)
    requires QueueOf(c.queues, kind) != []
    ensures Among(Dequeued(c, kind).resolved, QueueOf(c.queues, kind)[0].id) && Dequeued(c, kind).answered == c.answered
    ensures QueueOf(Dequeued(c, kind).queues, kind) == QueueOf(c.queues, kind)[1..]
  {
    DequeuedShape(c, kind, kind);
    var u := Dequeued(c, kind);
    assert u.resolved[|c.resolved|].id == QueueOf(c.queues, kind)[0].id;
  }

  /**
   In every run an answer of some type answers the head of that type, a timer fails it, and either
   way the next request of the type moves up.
   */
  lemma HeadOutcome(es: seq<Event>, n: nat, kind: nat)
    requires n <= |es| && QueueOf(ClientAt(es, n).queues, kind) != []
    ensures var c := ClientAt(es, n);
            var head := QueueOf(c.queues, kind)[0];
            && (c.socket == Up ==>
                  var u := Step(c, Response(kind));
                  head.id in u.answered && !FailedRequest(u, head.id) && QueueOf(u.queues, kind) == QueueOf(c.queues, kind)[1..])
            && (kind in c.armed ==>
                  var u := Step(c, Timeout(kind));
                  FailedRequest(u, head.id) && head.id !in u.answered && QueueOf(u.queues, kind) == QueueOf(c.queues, kind)[1..])
  {
    hide ClientAt;
    RequestsConserved(es, n);
    AnsweredAlways(es, n);
    var c := ClientAt(es, n);
    WaitingUnanswered(c, kind);
    HeadTaken(c, kind);
    WaitingUnresolved(c, kind, 0);
    var head := QueueOf(c.queues, kind)[0];
    assert WaitingAs(c, head);
    assert Waiting(c, head.id);
    WaitingExclusive(c, head.id);
    RefusedStays(c, kind);
    hide Inv, Dequeued, AnsweredInv, Waiting, Among;
  }

  lemma RefusedStays(c: Client, kind: nat)
    requires QueueOf(c.queues, kind) != []
    ensures Dequeued(c, kind).refused == c.refused
  {
  }

  // ---------------------------------------------------------------- only heads, and once

  ghost predicate AtHead(queues: map<nat, seq<Request>>, r: Request) {
    var queue := QueueOf(queues, ResponseFor(r.serviceId));
    queue != [] && queue[0] == r
  }

  ghost predicate WrittenInv(c: Client) {
    && NoRepeats(c.written)
    && (forall r :: r in c.written ==> r.id < c.issued && (r in c.resolved || AtHead(c.queues, r)))
  }

  lemma OnlyHeadsInState(c: Client, kind: nat, i: nat)
    requires Inv(c) && WrittenInv(c) && 0 < i < |QueueOf(c.queues, kind)|
    ensures QueueOf(c.queues, kind)[i] !in c.written
  {
    WaitingUnresolved(c, kind, i);
  }

  lemma DequeueKeepsWritten(c: Client, kind: nat)
    requires Inv(c) && WrittenInv(c) && QueueOf(c.queues, kind) != []
    ensures WrittenInv(Dequeued(c, kind))
  {
    var queue := QueueOf(c.queues, kind);
    WaitingUnresolved(c, kind, 0);
    if |queue| > 1 {
      OnlyHeadsInState(c, kind, 1);
      WaitingUnresolved(c, kind, 1);
    }
    hide Inv;
    var u := Dequeued(c, kind);
    forall r | r in u.written
      ensures r.id < u.issued && (r in u.resolved || AtHead(u.queues, r))
    {
      if r in c.written && AtHead(c.queues, r) && r !in u.resolved {
        assert ResponseFor(r.serviceId) != kind;
      }
    }
  }

  lemma IssueKeepsWritten(c: Client, serviceId: nat, serializes: bool)
    requires Inv(c) && WrittenInv(c)
    ensures WrittenInv(Step(c, Issue(serviceId, serializes)))
  {
    hide Inv;
  }

  lemma {:induction false} HeadDrained(queues: map<nat, seq<Request>>, order: seq<nat>, kind: nat)
    requires kind in order && QueueOf(queues, kind) != []
    ensures QueueOf(queues, kind)[0] in Drained(queues, order)
    decreases |order|
  {
    if order[0] != kind {
      assert order == [order[0]] + order[1..];
      HeadDrained(queues, order[1..], kind);
    }
  }

  lemma DownKeepsWritten(c: Client, order: seq<nat>, reconnect: bool)
    requires WrittenInv(c)
    ensures WrittenInv(Step(c, SocketDown(order, reconnect)))
  {
    if c.socket == Up && Enumerates(order, c.queues) {
      forall r | r in c.written && AtHead(c.queues, r)
        ensures r in Drained(c.queues, order)
      {
        HeadDrained(c.queues, order, ResponseFor(r.serviceId));
      }
    }
  }

  lemma StepKeepsWritten(c: Client, e: Event)
    requires Inv(c) && WrittenInv(c)
    ensures WrittenInv(Step(c, e))
  {
    hide Inv, Dequeued, AtHead;
    match e
    case Issue(serviceId, serializes) => IssueKeepsWritten(c, serviceId, serializes);
    case Response(kind) => if QueueOf(c.queues, kind) != [] { DequeueKeepsWritten(c, kind); }
    case Timeout(kind) => if QueueOf(c.queues, kind) != [] { DequeueKeepsWritten(c, kind); }
    case SocketDown(order, reconnect) => DownKeepsWritten(c, order, reconnect);
    case _ =>
  }

  lemma {:induction false} WrittenInvAlways(es: seq<Event>, n: nat)
    requires n <= |es|
    ensures WrittenInv(ClientAt(es, n))
  {
    hide Inv, WrittenInv, Step;
    if n == 0 {
      StartWritten();
    } else {
      WrittenInvAlways(es, n - 1);
      RequestsConserved(es, n - 1);
      StepKeepsWritten(ClientAt(es, n - 1), es[n - 1]);
    }
  }

  lemma StartWritten()
    ensures WrittenInv(START)
  {
  }

  /** In every run no request is written twice and none that is behind another of its type. */
  lemma OnlyHeadsWritten(es: seq<Event>, n: nat, kind: nat, i: nat)
    requires n <= |es| && 0 < i < |QueueOf(ClientAt(es, n).queues, kind)|
    ensures QueueOf(ClientAt(es, n).queues, kind)[i] !in ClientAt(es, n).written
    ensures NoRepeats(ClientAt(es, n).written)
  {
    hide Inv, ClientAt, QueueOf;
    RequestsConserved(es, n);
    WrittenInvAlways(es, n);
    OnlyHeadsInState(ClientAt(es, n), kind, i);
  }
}
