/**
 The client's requests to the gateway.  Answers carry only a response type, so requests wait in
 one queue per type, the head of each is on the wire, and an answer or a timer takes the head.
 */
module RequestQueues {
  /** Requests are numbered in the order they are made; the number stands for the request id. */
  datatype Request = Request(id: nat, serviceId: nat)

  datatype Socket = Down | Opening | Up

  datatype Connection = Disconnected | Connecting | Authenticating | Ready | Reconnecting | Closing

  datatype Client = Client(
    socket: Socket,
    connection: Connection,
    queues: map<nat, seq<Request>>,    // by response type; no queue is empty
    armed: set<nat>,                   // response types whose timer runs
    issued: nat,
    refused: set<nat>,                 // ids failed without being queued
    accepted: seq<Request>,
    resolved: seq<Request>,            // taken from a queue: answered or failed
    answered: set<nat>,
    written: seq<Request>)             // handed to the socket

  const START := Client(Down, Disconnected, map[], {}, 0, {}, [], [], {}, [])

  datatype Event =
    | Issue(serviceId: nat, serializes: bool)
    | Response(kind: nat)
    | Timeout(kind: nat)
    | Login
    | Close
    | StartSocket(attempts: nat)
    | OpenFailed
    | SocketUp
    | SocketDown(order: seq<nat>, reconnect: bool)    // the order in which the queues are emptied

  function ResponseFor(serviceId: nat): nat {
    serviceId + 1
  }

  /** Requests have odd numbers; the answer's number falls between the request's and the next, so no two share a queue. */
  lemma AnswersNeverCollide(a: nat, b: nat)
    requires a % 2 == 1 && b % 2 == 1
    ensures ResponseFor(a) % 2 == 0 && (ResponseFor(a) == ResponseFor(b) ==> a == b)
    ensures a < b ==> a < ResponseFor(a) < b < ResponseFor(b)
  {
  }

  function QueueOf(queues: map<nat, seq<Request>>, kind: nat): seq<Request> {
    if kind in queues then queues[kind] else []
  }

  /** Write the head of a queue and start its timer, if the connection is ready. */
  function SentFront(c: Client, kind: nat): Client {
    if QueueOf(c.queues, kind) == [] || c.connection != Ready then c
    else c.(written := c.written + [QueueOf(c.queues, kind)[0]], armed := c.armed + {kind})
  }

  /** Take the head off a queue, with its timer stopped, and let the next request go. */
  function Dequeued(c: Client, kind: nat): Client
    requires QueueOf(c.queues, kind) != []
  {
    var queue := QueueOf(c.queues, kind);
    var c' := c.(resolved := c.resolved + [queue[0]], armed := c.armed - {kind});
    if |queue| == 1 then c'.(queues := c.queues - {kind})
    else SentFront(c'.(queues := c.queues[kind := queue[1..]]), kind)
  }

  /** All waiting requests, queue by queue. */
  function Drained(queues: map<nat, seq<Request>>, order: seq<nat>): seq<Request> {
    if order == [] then []
    else QueueOf(queues, order[0]) + Drained(queues, order[1..])
  }

  ghost predicate NoRepeats<T>(s: seq<T>) {
    forall i, j :: 0 <= i < j < |s| ==> s[i] != s[j]
  }

  /** The order in which a hash table yields its keys. */
  ghost predicate Enumerates(order: seq<nat>, queues: map<nat, seq<Request>>) {
    NoRepeats(order) && forall kind :: kind in order <==> kind in queues
  }

  ghost function Step(c: Client, e: Event): Client {
    match e
    case Issue(serviceId, serializes) =>
      var r := Request(c.issued, serviceId);
      var c' := c.(issued := c.issued + 1);
      if c.connection != Ready || !serializes then c'.(refused := c.refused + {r.id})
      else
        var kind := ResponseFor(serviceId);
        var queued := c'.(accepted := c.accepted + [r], queues := c.queues[kind := QueueOf(c.queues, kind) + [r]]);
        if |QueueOf(queued.queues, kind)| == 1 then SentFront(queued, kind) else queued
    case Response(kind) =>
      if c.socket != Up || QueueOf(c.queues, kind) == [] then c
      else Dequeued(c, kind).(answered := c.answered + {QueueOf(c.queues, kind)[0].id})
    case Timeout(kind) =>
      if kind !in c.armed then c
      else if QueueOf(c.queues, kind) == [] then c.(armed := c.armed - {kind})
      else Dequeued(c, kind)
    case Login => if c.socket != Up then c else c.(connection := Ready)
    case Close => if c.socket == Down then c.(connection := Disconnected) else c.(connection := Closing)
    case StartSocket(attempts) =>
      if c.socket != Down then c
      else c.(socket := Opening, connection := if attempts == 0 then Connecting else Reconnecting)
    case OpenFailed => if c.socket != Opening then c else c.(socket := Down)
    case SocketUp => if c.socket != Opening then c else c.(socket := Up, connection := Authenticating)
    case SocketDown(order, reconnect) =>
      if c.socket != Up || !Enumerates(order, c.queues) then c
      else c.(socket := Down, queues := map[], armed := {}, resolved := c.resolved + Drained(c.queues, order),
              connection := if reconnect && c.connection != Closing then Reconnecting else Disconnected)
  }

  ghost function ClientAt(es: seq<Event>, n: nat): Client
    requires n <= |es|
  {
    if n == 0 then START else Step(ClientAt(es, n - 1), es[n - 1])
  }

  // ---------------------------------------------------------------- conservation and order

  /** The requests of one response type, in order. */
  function Of(rs: seq<Request>, kind: nat): seq<Request> {
    if rs == [] then []
    else (if ResponseFor(rs[0].serviceId) == kind then [rs[0]] else []) + Of(rs[1..], kind)
  }

  lemma {:induction false} OfAppend(a: seq<Request>, b: seq<Request>, kind: nat)
    ensures Of(a + b, kind) == Of(a, kind) + Of(b, kind)
    decreases |a|
  {
    if a == [] {
      assert a + b == b;
    } else {
      OfAppend(a[1..], b, kind);
      assert (a + b)[1..] == a[1..] + b;
    }
  }

  lemma OfOne(r: Request, kind: nat)
    ensures Of([r], kind) == if ResponseFor(r.serviceId) == kind then [r] else []
  {
    assert [r][1..] == [];
  }

  ghost predicate Sorted(queue: seq<Request>, kind: nat) {
    forall i :: 0 <= i < |queue| ==> ResponseFor(queue[i].serviceId) == kind
  }

  lemma {:induction false} OfQueue(queue: seq<Request>, from: nat, kind: nat)
    requires Sorted(queue, from)
    ensures Of(queue, kind) == if kind == from then queue else []
    decreases |queue|
  {
    if queue != [] {
      OfQueue(queue[1..], from, kind);
    }
  }

  ghost predicate QueuesSorted(queues: map<nat, seq<Request>>) {
    forall kind :: kind in queues ==> queues[kind] != [] && Sorted(queues[kind], kind)
  }

  lemma {:induction false} OfDrained(queues: map<nat, seq<Request>>, order: seq<nat>, kind: nat)
    requires QueuesSorted(queues) && NoRepeats(order)
    ensures Of(Drained(queues, order), kind) == if kind in order && kind in queues then queues[kind] else []
    decreases |order|
  {
    if order != [] {
      var first := order[0];
      var head := QueueOf(queues, first);
      OfDrained(queues, order[1..], kind);
      OfAppend(head, Drained(queues, order[1..]), kind);
      OfQueue(head, first, kind);
      assert order == [first] + order[1..];
      assert first !in order[1..];
    }
  }

  /**
   Per response type, resolved then queued are the accepted requests in order: nothing is lost,
   resolved twice or overtaken.
   */
  ghost predicate Conserved(resolved: seq<Request>, queues: map<nat, seq<Request>>, accepted: seq<Request>, kind: nat) {
    Of(resolved, kind) + QueueOf(queues, kind) == Of(accepted, kind)
  }

  ghost predicate Numbered(accepted: seq<Request>, refused: set<nat>, issued: nat) {
    && (forall i :: 0 <= i < |accepted| ==> accepted[i].id < issued && accepted[i].id !in refused)
    && (forall i, j :: 0 <= i < j < |accepted| ==> accepted[i].id < accepted[j].id)
    && (forall id :: id in refused ==> id < issued)
  }

  ghost predicate Among(rs: seq<Request>, id: nat) {
    exists i :: 0 <= i < |rs| && rs[i].id == id
  }

  /** Every request made was refused at once or queued. */
  ghost predicate Classified(accepted: seq<Request>, refused: set<nat>, issued: nat) {
    forall id: nat :: id < issued ==> id in refused || Among(accepted, id)
  }

  ghost predicate Inv(c: Client) {
    && QueuesSorted(c.queues)
    && (forall kind :: Conserved(c.resolved, c.queues, c.accepted, kind))
    && Numbered(c.accepted, c.refused, c.issued)
    && Classified(c.accepted, c.refused, c.issued)
    && (c.socket != Up ==> c.queues == map[] && c.connection != Ready)
  }

  lemma IssueKeepsConserved(c: Client, r: Request, kind: nat)
    requires Conserved(c.resolved, c.queues, c.accepted, kind)
    ensures var home := ResponseFor(r.serviceId);
            Conserved(c.resolved, c.queues[home := QueueOf(c.queues, home) + [r]], c.accepted + [r], kind)
  {
    OfAppend(c.accepted, [r], kind);
    OfOne(r, kind);
    var home := ResponseFor(r.serviceId);
    if kind == home {
      assert Of(c.resolved, kind) + (QueueOf(c.queues, kind) + [r]) == Of(c.resolved, kind) + QueueOf(c.queues, kind) + [r];
    } else {
      assert Of(c.accepted, kind) + [] == Of(c.accepted, kind);
    }
  }

  /** Of one type, the head moves from the queue to the resolved requests. */
  lemma HeadMoves(resolved: seq<Request>, queue: seq<Request>, home: nat, kind: nat)
    requires queue != [] && ResponseFor(queue[0].serviceId) == home
    ensures Of(resolved + [queue[0]], kind) + (if kind == home then queue[1..] else []) ==
            Of(resolved, kind) + (if kind == home then queue else [])
  {
    OfAppend(resolved, [queue[0]], kind);
    OfOne(queue[0], kind);
    hide Of;
    if kind == home {
      assert queue == [queue[0]] + queue[1..];
    }
  }

  lemma DequeuedShape(c: Client, home: nat, kind: nat)
    requires QueueOf(c.queues, home) != []
    ensures var u, queue := Dequeued(c, home), QueueOf(c.queues, home);
            && u.accepted == c.accepted && u.resolved == c.resolved + [queue[0]]
            && QueueOf(u.queues, kind) == if kind == home then queue[1..] else QueueOf(c.queues, kind)
  {
  }

  lemma DequeueKeepsConserved(c: Client, home: nat, kind: nat)
    requires QueuesSorted(c.queues) && Conserved(c.resolved, c.queues, c.accepted, kind) && QueueOf(c.queues, home) != []
    ensures var u := Dequeued(c, home); Conserved(u.resolved, u.queues, u.accepted, kind)
  {
    hide Dequeued, Of, ResponseFor;
    var queue := QueueOf(c.queues, home);
    assert ResponseFor(queue[0].serviceId) == home;
    DequeuedShape(c, home, kind);
    HeadMoves(c.resolved, queue, home, kind);
    if kind != home {
      assert Of(c.resolved, kind) + [] == Of(c.resolved, kind);
      assert Of(c.resolved + [queue[0]], kind) + [] == Of(c.resolved + [queue[0]], kind);
    }
  }

  lemma DownKeepsConserved(c: Client, order: seq<nat>, kind: nat)
    requires QueuesSorted(c.queues) && Conserved(c.resolved, c.queues, c.accepted, kind) && Enumerates(order, c.queues)
    ensures Of(c.resolved + Drained(c.queues, order), kind) == Of(c.accepted, kind)
  {
    OfAppend(c.resolved, Drained(c.queues, order), kind);
    OfDrained(c.queues, order, kind);
  }

  lemma DequeueKeepsInv(c: Client, home: nat)
    requires Inv(c) && QueueOf(c.queues, home) != [] && c.socket == Up
    ensures Inv(Dequeued(c, home))
  {
    forall kind
      ensures var u := Dequeued(c, home); Conserved(u.resolved, u.queues, u.accepted, kind)
    {
      DequeueKeepsConserved(c, home, kind);
    }
    hide Conserved, Numbered, Classified;
    var queue := QueueOf(c.queues, home);
    assert Sorted(queue[1..], home);
    assert |queue| > 1 ==> queue[1..] != [];
  }

  lemma IssueKeepsNumbers(c: Client, serviceId: nat, serializes: bool)
    requires Numbered(c.accepted, c.refused, c.issued) && Classified(c.accepted, c.refused, c.issued)
    ensures var u := Step(c, Issue(serviceId, serializes));
            Numbered(u.accepted, u.refused, u.issued) && Classified(u.accepted, u.refused, u.issued)
  {
    var u := Step(c, Issue(serviceId, serializes));
    forall id: nat | id < u.issued
      ensures id in u.refused || Among(u.accepted, id)
    {
      if id < c.issued && id !in c.refused {
        var i :| 0 <= i < |c.accepted| && c.accepted[i].id == id;
        assert u.accepted[i].id == id;
      } else if id == c.issued && id !in u.refused {
        assert u.accepted[|c.accepted|].id == id;
      }
    }
  }

  lemma IssueKeepsInv(c: Client, serviceId: nat, serializes: bool)
    requires Inv(c)
    ensures Inv(Step(c, Issue(serviceId, serializes)))
  {
    IssueKeepsNumbers(c, serviceId, serializes);
    var r := Request(c.issued, serviceId);
    var home := ResponseFor(serviceId);
    var queues, accepted := c.queues[home := QueueOf(c.queues, home) + [r]], c.accepted + [r];
    forall kind
      ensures Conserved(c.resolved, queues, accepted, kind)
    {
      IssueKeepsConserved(c, r, kind);
    }
    hide Numbered, Classified;
    assert Sorted(QueueOf(c.queues, home) + [r], home);
    assert QueueOf(c.queues, home) + [r] != [];
  }

  lemma DownKeepsInv(c: Client, order: seq<nat>, reconnect: bool)
    requires Inv(c)
    ensures Inv(Step(c, SocketDown(order, reconnect)))
  {
    var u := Step(c, SocketDown(order, reconnect));
    if c.socket == Up && Enumerates(order, c.queues) {
      forall kind
        ensures Conserved(u.resolved, u.queues, u.accepted, kind)
      {
        DownKeepsConserved(c, order, kind);
        assert Of(u.resolved, kind) + [] == Of(u.resolved, kind);
      }
    }
    hide Conserved, Numbered, Classified, Enumerates;
  }

  lemma StepKeepsInv(c: Client, e: Event)
    requires Inv(c)
    ensures Inv(Step(c, e))
  {
    hide Conserved, Numbered, Classified, Dequeued;
    match e
    case Issue(serviceId, serializes) => IssueKeepsInv(c, serviceId, serializes);
    case Response(kind) => if c.socket == Up && QueueOf(c.queues, kind) != [] { DequeueKeepsInv(c, kind); }
    case Timeout(kind) => if kind in c.armed && QueueOf(c.queues, kind) != [] { DequeueKeepsInv(c, kind); }
    case SocketDown(order, reconnect) => DownKeepsInv(c, order, reconnect);
    case _ =>
  }

  /** In every run each request made is refused at once, still queued, or resolved, in order and once. */
  lemma {:induction false} RequestsConserved(es: seq<Event>, n: nat)
    requires n <= |es|
    ensures Inv(ClientAt(es, n))
  {
    hide Inv, Step;
    if n == 0 {
      StartInv();
    } else {
      RequestsConserved(es, n - 1);
      StepKeepsInv(ClientAt(es, n - 1), es[n - 1]);
    }
  }

  lemma StartInv()
    ensures Inv(START)
  {
    assert forall kind: nat :: Conserved([], map[], [], kind);
  }

  /** A lost connection leaves nothing waiting: of every type, all that was accepted is resolved. */
  lemma DisconnectResolvesAll(es: seq<Event>, n: nat, order: seq<nat>, reconnect: bool, kind: nat)
    requires n <= |es| && ClientAt(es, n).socket == Up && Enumerates(order, ClientAt(es, n).queues)
    ensures var u := Step(ClientAt(es, n), SocketDown(order, reconnect));
            && u.queues == map[] && Of(u.resolved, kind) == Of(u.accepted, kind) && u.answered == ClientAt(es, n).answered
            && u.connection == if reconnect && ClientAt(es, n).connection != Closing then Reconnecting else Disconnected
  {
    hide Numbered, Classified, Of, Drained, ClientAt, Conserved, Enumerates, QueuesSorted;
    RequestsConserved(es, n);
    var c := ClientAt(es, n);
    assert Conserved(c.resolved, c.queues, c.accepted, kind);
    DownKeepsConserved(c, order, kind);
  }
}
