/**
 The Message node's registry of gateway streams.  A stream's reactor is a heap object that
 deletes itself when the stream is done; the registry and the commands in flight keep its bare
 address, and a later reactor may be allocated at the same address.
 */
module StreamRegistry {
  import opened Options
  import opened SessionLeases

  /** `serial` tells two streams apart even when they reuse an address; the program has no such field. */
  datatype Reactor = Reactor(serial: nat, gatewayId: string, instanceId: string, registered: bool)

  datatype Entry = Entry(instanceId: string, address: int)

  datatype Streams = Streams(reactors: map<int, Reactor>, entries: map<string, Entry>, nextSerial: nat)

  /** A command being worked on: it remembers the reactor it came from by address. */
  datatype Origin = Origin(address: int, serial: nat, gatewayId: string, instanceId: string)

  datatype StreamEvent =
    | Connect(address: int)
    | Register(address: int, gatewayId: string, instanceId: string, admitted: bool)
    | Done(address: int)

  /** The protocol version, the draining flag and the peer certificate decide `admitted`. */
  predicate ValidRegistration(gatewayId: string, instanceId: string, admitted: bool) {
    admitted && gatewayId != "" && instanceId != ""
  }

  /** A registration overwrites the reactor's identity before it is known to be valid. */
  function Registered(s: Streams, a: int, gatewayId: string, instanceId: string, admitted: bool): Streams
    requires a in s.reactors
  {
    var valid := ValidRegistration(gatewayId, instanceId, admitted);
    var r := s.reactors[a].(gatewayId := gatewayId, instanceId := instanceId);
    s.(reactors := s.reactors[a := if valid then r.(registered := true) else r],
       entries := if valid then s.entries[gatewayId := Entry(instanceId, a)] else s.entries)
  }

  /** Remove the entry only if it still names this reactor under this identity. */
  function Unregistered(entries: map<string, Entry>, gatewayId: string, instanceId: string, a: int): map<string, Entry> {
    if gatewayId in entries && entries[gatewayId] == Entry(instanceId, a) then entries - {gatewayId} else entries
  }

  function StreamStep(s: Streams, e: StreamEvent): Streams {
    match e
    case Connect(a) =>
      if a in s.reactors then s
      else s.(reactors := s.reactors[a := Reactor(s.nextSerial, "", "", false)], nextSerial := s.nextSerial + 1)
    case Register(a, gatewayId, instanceId, admitted) =>
      if a in s.reactors then Registered(s, a, gatewayId, instanceId, admitted) else s
    case Done(a) =>
      if a !in s.reactors then s
      else s.(entries := Unregistered(s.entries, s.reactors[a].gatewayId, s.reactors[a].instanceId, a),
              reactors := s.reactors - {a})
  }

  /** The stream a reply is written to, if any. */
  function ReplyTarget(s: Streams, o: Origin): Option<Reactor> {
    if o.gatewayId in s.entries && s.entries[o.gatewayId] == Entry(o.instanceId, o.address) && o.address in s.reactors
    then Some(s.reactors[o.address]) else None
  }

  // ---------------------------------------------------------------- lifetime

  /** A registered address whose reactor has been deleted. */
  ghost predicate Dangling(s: Streams) {
    exists g :: g in s.entries && s.entries[g].address !in s.reactors
  }

  /** Every entry names a live reactor that knows itself by the entry's identity. */
  ghost predicate Consistent(s: Streams) {
    forall g :: g in s.entries ==>
      && s.entries[g].address in s.reactors
      && s.reactors[s.entries[g].address].gatewayId == g
      && s.reactors[s.entries[g].address].instanceId == s.entries[g].instanceId
  }

  /** The stream is not registered yet, or registers again as the gateway it already is. */
  ghost predicate KeepsIdentity(s: Streams, e: StreamEvent) {
    e.Register? ==>
      forall g :: g in s.entries && s.entries[g].address == e.address ==>
        g == e.gatewayId && (ValidRegistration(e.gatewayId, e.instanceId, e.admitted) || s.entries[g].instanceId == e.instanceId)
  }

  lemma StepKeepsConsistent(s: Streams, e: StreamEvent)
    requires Consistent(s) && KeepsIdentity(s, e)
    ensures Consistent(StreamStep(s, e))
  {
  }

  function StreamsAt(es: seq<StreamEvent>, n: nat): Streams
    requires n <= |es|
  {
    if n == 0 then Streams(map[], map[], 0) else StreamStep(StreamsAt(es, n - 1), es[n - 1])
  }

  /** While every stream registers under one identity, the registry never names a deleted reactor. */
  lemma {:induction false} RegistryAlive(es: seq<StreamEvent>, n: nat)
    requires n <= |es| && forall i :: 0 <= i < n ==> KeepsIdentity(StreamsAt(es, i), es[i])
    ensures Consistent(StreamsAt(es, n)) && !Dangling(StreamsAt(es, n))
  {
    hide StreamStep, KeepsIdentity;
    if n > 0 {
      RegistryAlive(es, n - 1);
      assert KeepsIdentity(StreamsAt(es, n - 1), es[n - 1]);
      StepKeepsConsistent(StreamsAt(es, n - 1), es[n - 1]);
    }
  }

  /**
   That condition is exact: a registration that breaks it leaves an entry behind, and as soon as
   its stream is done the registry names a deleted reactor.
   */
  lemma IdentityIsNeeded(s: Streams, e: StreamEvent)
    requires Consistent(s) && e.Register? && e.address in s.reactors
    ensures Dangling(StreamStep(StreamStep(s, e), Done(e.address))) <==> !KeepsIdentity(s, e)
  {
    if KeepsIdentity(s, e) {
      StepKeepsConsistent(s, e);
      StepKeepsConsistent(StreamStep(s, e), Done(e.address));
    } else {
      var g :| g in s.entries && s.entries[g].address == e.address
               && !(g == e.gatewayId && (ValidRegistration(e.gatewayId, e.instanceId, e.admitted) || s.entries[g].instanceId == e.instanceId));
      var u := StreamStep(StreamStep(s, e), Done(e.address));
      assert g in u.entries && u.entries[g].address == e.address;
    }
  }

  const RENAMED: seq<StreamEvent> := [Connect(1), Register(1, "hunan", "a", true), Register(1, "beijing", "a", false), Done(1)]

  /** One stream that asks for a second identity, even in vain, is enough. */
  lemma RenamedStreamDangles()
    ensures Dangling(StreamsAt(RENAMED, 4))
  {
    var s := StreamsAt(RENAMED, 2);
    assert StreamsAt(RENAMED, 0) == Streams(map[], map[], 0);
    assert StreamsAt(RENAMED, 1) == StreamStep(StreamsAt(RENAMED, 0), RENAMED[0]);
    assert s == StreamStep(StreamsAt(RENAMED, 1), RENAMED[1]);
    assert s.entries == map["hunan" := Entry("a", 1)] && s.reactors == map[1 := Reactor(0, "hunan", "a", true)];
    assert "hunan" in s.entries && s.entries["hunan"].address == 1;
    IdentityIsNeeded(s, RENAMED[2]);
    assert StreamsAt(RENAMED, 3) == StreamStep(s, RENAMED[2]);
    assert StreamsAt(RENAMED, 4) == StreamStep(StreamsAt(RENAMED, 3), RENAMED[3]);
  }

  /** Nothing in the run takes the entry of gateway `g` from the stream at address `b`. */
  ghost predicate Undisturbed(e: StreamEvent, g: string, b: int) {
    e != Done(b) && !(e.Register? && e.gatewayId == g)
  }

  /**
   A registration stands until its own stream ends or the gateway registers again: the late end
   of an older stream of the same gateway, at any later time, does not remove it.
   */
  lemma {:induction false} RegistrationStands(es: seq<StreamEvent>, i: nat, n: nat, g: string)
    requires i <= n <= |es| && g in StreamsAt(es, i).entries
    requires forall k :: i <= k < n ==> Undisturbed(es[k], g, StreamsAt(es, i).entries[g].address)
    ensures g in StreamsAt(es, n).entries && StreamsAt(es, n).entries[g] == StreamsAt(es, i).entries[g]
    decreases n
  {
    if i < n {
      RegistrationStands(es, i, n - 1, g);
      assert Undisturbed(es[n - 1], g, StreamsAt(es, i).entries[g].address);
    }
  }

  /** A stream takes over its gateway's entry exactly with an admitted registration under two non-empty names. */
  lemma RegistersIff(s: Streams, a: int, gatewayId: string, instanceId: string, admitted: bool)
    requires a in s.reactors && (gatewayId in s.entries ==> s.entries[gatewayId].address != a)
    ensures var u := StreamStep(s, Register(a, gatewayId, instanceId, admitted));
            && ((gatewayId in u.entries && u.entries[gatewayId] == Entry(instanceId, a)) <==>
                (admitted && gatewayId != "" && instanceId != ""))
            && (forall g :: g in s.entries && g != gatewayId ==> g in u.entries && u.entries[g] == s.entries[g])
            && a in u.reactors && u.reactors[a].serial == s.reactors[a].serial
            && (u.reactors[a].registered <==> s.reactors[a].registered || (admitted && gatewayId != "" && instanceId != ""))
  {
  }

  // ---------------------------------------------------------------- replies

  ghost predicate SerialsDistinct(s: Streams) {
    && (forall a :: a in s.reactors ==> s.reactors[a].serial < s.nextSerial)
    && (forall a, b :: a in s.reactors && b in s.reactors && a != b ==> s.reactors[a].serial != s.reactors[b].serial)
  }

  lemma {:induction false} SerialsStayDistinct(es: seq<StreamEvent>, n: nat)
    requires n <= |es|
    ensures SerialsDistinct(StreamsAt(es, n))
  {
    if n > 0 {
      SerialsStayDistinct(es, n - 1);
    }
  }

  ghost predicate AliveAt(s: Streams, o: Origin) {
    o.address in s.reactors && s.reactors[o.address].serial == o.serial
  }

  /** A command that arrives over a stream remembers the stream's identity as it is then. */
  function OriginAt(s: Streams, a: int): Origin
    requires a in s.reactors
  {
    Origin(a, s.reactors[a].serial, s.reactors[a].gatewayId, s.reactors[a].instanceId)
  }

  /** The stream a command came over lives on exactly as long as it has not been reported done. */
  lemma {:induction false} AliveIffNotDone(es: seq<StreamEvent>, i: nat, n: nat, a: int)
    requires i <= n <= |es| && a in StreamsAt(es, i).reactors
    ensures AliveAt(StreamsAt(es, n), OriginAt(StreamsAt(es, i), a)) <==> forall k :: i <= k < n ==> es[k] != Done(a)
    decreases n
  {
    var o := OriginAt(StreamsAt(es, i), a);
    if i < n {
      AliveIffNotDone(es, i, n - 1, a);
      SerialsStayDistinct(es, i);
      if es[n - 1] == Done(a) || !AliveAt(StreamsAt(es, n - 1), o) {
        NextSerialGrows(es, i, n - 1);
        GoneStep(StreamsAt(es, n - 1), es[n - 1], o);
      }
    }
  }

  lemma {:induction false} NextSerialGrows(es: seq<StreamEvent>, i: nat, n: nat)
    requires i <= n <= |es|
    ensures StreamsAt(es, i).nextSerial <= StreamsAt(es, n).nextSerial
    decreases n
  {
    if i < n {
      NextSerialGrows(es, i, n - 1);
    }
  }

  /** A stream that is gone, or ends now, is gone afterwards: a new one at its address has a new serial. */
  lemma GoneStep(s: Streams, e: StreamEvent, o: Origin)
    requires o.serial < s.nextSerial && (!AliveAt(s, o) || e == Done(o.address))
    ensures !AliveAt(StreamStep(s, e), o)
  {
  }

  /**
   A command arrives over the stream at `a` at step i and is answered at step n.  If the answer is
   written at all, it goes to a stream of the gateway instance the command came from, and to that
   very stream exactly when it has not been done in between; otherwise a newer stream of the same
   instance got its address.
   */
  lemma ReplyGoesHomeIff(es: seq<StreamEvent>, i: nat, n: nat, a: int)
    requires i <= n <= |es| && a in StreamsAt(es, i).reactors
    requires forall k :: 0 <= k < n ==> KeepsIdentity(StreamsAt(es, k), es[k])
    ensures var o := OriginAt(StreamsAt(es, i), a);
            var target := ReplyTarget(StreamsAt(es, n), o);
            target.Some? ==>
              && target.value.gatewayId == o.gatewayId && target.value.instanceId == o.instanceId
              && (target.value.serial == o.serial <==> forall k :: i <= k < n ==> es[k] != Done(a))
  {
    hide StreamStep, KeepsIdentity;
    RegistryAlive(es, n);
    AliveIffNotDone(es, i, n, a);
  }

  /** The answer does reach that stream if it is registered and nothing has disturbed it since. */
  lemma ReplyArrives(es: seq<StreamEvent>, i: nat, n: nat, a: int)
    requires i <= n <= |es| && a in StreamsAt(es, i).reactors
    requires var s := StreamsAt(es, i);
             var o := OriginAt(s, a);
             o.gatewayId in s.entries && s.entries[o.gatewayId] == Entry(o.instanceId, a)
    requires forall k :: i <= k < n ==> Undisturbed(es[k], StreamsAt(es, i).reactors[a].gatewayId, a)
    ensures var o := OriginAt(StreamsAt(es, i), a);
            var target := ReplyTarget(StreamsAt(es, n), o);
            target.Some? && target.value.serial == o.serial
  {
    hide StreamStep;
    RegistrationStands(es, i, n, StreamsAt(es, i).reactors[a].gatewayId);
    AliveIffNotDone(es, i, n, a);
    assert forall k :: i <= k < n ==> es[k] != Done(a);
  }

  const REUSED: seq<StreamEvent> := [
    Connect(1), Register(1, "hunan", "a", true), Done(1), Connect(1), Register(1, "hunan", "a", true)]

  /** Comparing addresses does not tell a reconnected stream from the old one. */
  lemma ReusedAddressIsMistaken()
    ensures ReplyTarget(StreamsAt(REUSED, 5), Origin(1, 0, "hunan", "a")).Some?
    ensures ReplyTarget(StreamsAt(REUSED, 5), Origin(1, 0, "hunan", "a")).value.serial == 1
  {
    assert StreamsAt(REUSED, 0) == Streams(map[], map[], 0);
    assert StreamsAt(REUSED, 1) == StreamStep(StreamsAt(REUSED, 0), REUSED[0]);
    assert StreamsAt(REUSED, 2) == StreamStep(StreamsAt(REUSED, 1), REUSED[1]);
    assert StreamsAt(REUSED, 3) == StreamStep(StreamsAt(REUSED, 2), REUSED[2]);
    assert 1 !in StreamsAt(REUSED, 3).reactors && StreamsAt(REUSED, 3).nextSerial == 1;
    assert StreamsAt(REUSED, 4) == StreamStep(StreamsAt(REUSED, 3), REUSED[3]);
    assert StreamsAt(REUSED, 5) == StreamStep(StreamsAt(REUSED, 4), REUSED[4]);
  }

  // ---------------------------------------------------------------- the service object

  class GatewayStreamService {
    var reactors: map<int, Reactor>
    var entries: map<string, Entry>
    var nextSerial: nat

    function View(): Streams
      reads this
    {
      Streams(reactors, entries, nextSerial)
    }

    constructor ()
      ensures View() == Streams(map[], map[], 0)
    {
      reactors, entries, nextSerial := map[], map[], 0;
    }

    method HandleRegister(a: int, gatewayId: string, instanceId: string, admitted: bool) returns (accepted: bool)
      requires a in reactors
      modifies this`reactors, this`entries
      ensures View() == StreamStep(old(View()), Register(a, gatewayId, instanceId, admitted))
      ensures accepted <==> ValidRegistration(gatewayId, instanceId, admitted)
    {
      reactors := reactors[a := reactors[a].(gatewayId := gatewayId, instanceId := instanceId)];
      accepted := admitted && gatewayId != "" && instanceId != "";
      if accepted {
        entries := entries[gatewayId := Entry(instanceId, a)];
        reactors := reactors[a := reactors[a].(registered := true)];
      }
    }

    method OnDone(a: int)
      requires a in reactors
      modifies this`reactors, this`entries
      ensures View() == StreamStep(old(View()), Done(a))
    {
      var r := reactors[a];
      if r.gatewayId in entries && entries[r.gatewayId].instanceId == r.instanceId && entries[r.gatewayId].address == a {
        entries := entries - {r.gatewayId};
      }
      reactors := reactors - {a};
    }

    /** The stream registered for the lease's gateway instance. */
    method Route(lease: Lease) returns (address: Option<int>)
      ensures forall a :: address == Some(a) <==> RoutesTo(View(), lease, a)
    {
      if lease.gatewayId !in entries || entries[lease.gatewayId].instanceId != lease.instanceId {
        return None;
      }
      return Some(entries[lease.gatewayId].address);
    }

    /**
     Address a push with the lease read first; if its stream does not take it and a second read
     finds another lease, try once more with that one.  `room` tells which reactors take a frame.
     A push is sent exactly when one of the two leases leads to a stream with room, to a live
     stream of the instance that lease names, and the first lease has precedence.
     */
    method DeliverToUser(uid: int, first: Option<Lease>, second: Option<Lease>, room: set<int>)
      returns (sent: Option<(int, Envelope)>)
      requires Consistent(View())
      ensures sent.Some? <==> first.Some? && (Reaches(View(), first, room) || Reaches(View(), second, room))
      ensures sent.Some? ==>
                var l := if Reaches(View(), first, room) then first.value else second.value;
                && RoutesTo(View(), l, sent.value.0) && sent.value.0 in room && sent.value.0 in reactors
                && reactors[sent.value.0].gatewayId == l.gatewayId && reactors[sent.value.0].instanceId == l.instanceId
                && sent.value.1 == Envelope(uid, l.connectionId, l.generation)
    {
      if first.None? {
        return None;
      }
      var to := Route(first.value);
      assert to.Some? ==> RoutesTo(View(), first.value, to.value);
      if to.Some? && to.value in room {
        return Some((to.value, Envelope(uid, first.value.connectionId, first.value.generation)));
      }
      if second.None? || second == first {
        return None;
      }
      to := Route(second.value);
      assert to.Some? ==> RoutesTo(View(), second.value, to.value);
      if to.Some? && to.value in room {
        return Some((to.value, Envelope(uid, second.value.connectionId, second.value.generation)));
      }
      return None;
    }
  }

  predicate RoutesTo(s: Streams, lease: Lease, a: int) {
    lease.gatewayId in s.entries && s.entries[lease.gatewayId] == Entry(lease.instanceId, a)
  }

  /** Some stream with room carries deliveries for the lease. */
  ghost predicate Reaches(s: Streams, lease: Option<Lease>, room: set<int>) {
    lease.Some? && exists a :: a in room && RoutesTo(s, lease.value, a)
  }
}
