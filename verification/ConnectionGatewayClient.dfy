/** The client's connection object, its handlers proved against the steps of the request queues. */
module ConnectionGatewayClient {
  import opened RequestQueues

  class ConnectionGatewayClient {
    var socket: Socket
    var connection: Connection
    var pendingByResponse: map<nat, seq<Request>>
    var timers: set<nat>
    var issued: nat
    // What the rest of the client and the gateway see.
    var refused: set<nat>
    var accepted: seq<Request>
    var resolved: seq<Request>
    var answered: set<nat>
    var written: seq<Request>

    function State(): Client
      reads this
    {
      Client(socket, connection, pendingByResponse, timers, issued, refused, accepted, resolved, answered, written)
    }

    ghost predicate Valid()
      reads this
    {
      Inv(State())
    }

    constructor ()
      ensures Valid() && State() == START
    {
      socket, connection, pendingByResponse, timers, issued := Down, Disconnected, map[], {}, 0;
      refused, accepted, resolved, answered, written := {}, [], [], {}, [];
      new;
      RequestsConserved([], 0);
    }

    method SendFront(kind: nat)
      modifies `written, `timers
      ensures State() == SentFront(old(State()), kind)
    {
      if kind !in pendingByResponse || pendingByResponse[kind] == [] || connection != Ready {
        return;
      }
      written := written + [pendingByResponse[kind][0]];
      timers := timers + {kind};
    }

    method QueueRequest(serviceId: nat, serializes: bool) returns (id: nat)
      requires Valid()
      modifies this
      ensures Valid() && id == old(issued) && State() == Step(old(State()), Issue(serviceId, serializes))
    {
      StepKeepsInv(State(), Issue(serviceId, serializes));
      hide Inv;
      id := issued;
      issued := issued + 1;
      if connection != Ready || !serializes {
        refused := refused + {id};
        return;
      }
      var kind := ResponseFor(serviceId);
      var queue := if kind in pendingByResponse then pendingByResponse[kind] else [];
      queue := queue + [Request(id, serviceId)];
      accepted := accepted + [Request(id, serviceId)];
      pendingByResponse := pendingByResponse[kind := queue];
      if |queue| == 1 {
        SendFront(kind);
      }
    }

    /** Take the head of a queue; its outcome has been reported. */
    method DequeueHead(kind: nat)
      requires QueueOf(pendingByResponse, kind) != []
      modifies `pendingByResponse, `resolved, `timers, `written
      ensures State() == Dequeued(old(State()), kind)
    {
      var queue := pendingByResponse[kind];
      timers := timers - {kind};
      resolved := resolved + [queue[0]];
      if |queue| == 1 {
        pendingByResponse := pendingByResponse - {kind};
      } else {
        pendingByResponse := pendingByResponse[kind := queue[1..]];
        SendFront(kind);
      }
    }

    /** An answer of some type arrived; `matched` is false when no request of the type waits. */
    method CompleteFront(kind: nat) returns (matched: bool)
      requires Valid() && socket == Up
      modifies this
      ensures Valid() && matched == (QueueOf(old(pendingByResponse), kind) != [])
      ensures State() == Step(old(State()), Response(kind))
    {
      StepKeepsInv(State(), Response(kind));
      hide Inv, Dequeued;
      if kind !in pendingByResponse || pendingByResponse[kind] == [] {
        return false;
      }
      var completed := pendingByResponse[kind][0];
      DequeueHead(kind);
      answered := answered + {completed.id};
      return true;
    }

    method OnTimeout(kind: nat)
      requires Valid() && kind in timers
      modifies this
      ensures Valid() && State() == Step(old(State()), Timeout(kind))
    {
      StepKeepsInv(State(), Timeout(kind));
      hide Inv, Dequeued;
      if kind !in pendingByResponse || pendingByResponse[kind] == [] {
        timers := timers - {kind};
        return;
      }
      DequeueHead(kind);
    }

    method FailQueue(queue: seq<Request>)
      modifies `resolved
      ensures resolved == old(resolved) + queue
    {
      var i := 0;
      while i < |queue|
        invariant i <= |queue| && resolved == old(resolved) + queue[..i]
      {
        resolved := resolved + [queue[i]];
        assert queue[..i + 1] == queue[..i] + [queue[i]];
        i := i + 1;
      }
      assert queue[..i] == queue;
    }

    /** Report every waiting request as failed, queue by queue, and forget the queues. */
    method FailAllPending() returns (order: seq<nat>)
      modifies `pendingByResponse, `resolved, `timers
      ensures Enumerates(order, old(pendingByResponse))
      ensures pendingByResponse == map[] && timers == {}
      ensures resolved == old(resolved) + Drained(old(pendingByResponse), order)
    {
      timers := {};
      order := [];
      ghost var queues := pendingByResponse;
      var todo := pendingByResponse.Keys;
      while todo != {}
        invariant todo <= queues.Keys && pendingByResponse == queues && timers == {}
        invariant NoRepeats(order) && forall kind :: kind in order <==> kind in queues && kind !in todo
        invariant resolved == old(resolved) + Drained(queues, order)
        decreases |todo|
      {
        var kind :| kind in todo;
        var queue := pendingByResponse[kind];
        FailQueue(queue);
        DrainedAppend(queues, order, kind);
        order := order + [kind];
        todo := todo - {kind};
      }
      pendingByResponse := map[];
    }

    method OnDisconnected(reconnect: bool) returns (order: seq<nat>)
      requires Valid() && socket == Up
      modifies this
      ensures Valid() && pendingByResponse == map[]
      ensures Enumerates(order, old(pendingByResponse))
      ensures State() == Step(old(State()), SocketDown(order, reconnect))
    {
      ghost var before := State();
      order := FailAllPending();
      StepKeepsInv(before, SocketDown(order, reconnect));
      hide Inv;
      socket := Down;
      connection := if reconnect && connection != Closing then Reconnecting else Disconnected;
    }
  }

  lemma {:induction false} DrainedAppend(queues: map<nat, seq<Request>>, order: seq<nat>, kind: nat)
    ensures Drained(queues, order + [kind]) == Drained(queues, order) + QueueOf(queues, kind)
    decreases |order|
  {
    if order == [] {
      assert [] + [kind] == [kind] && [kind][1..] == [];
    } else {
      DrainedAppend(queues, order[1..], kind);
      assert (order + [kind])[1..] == order[1..] + [kind];
    }
  }
}
