/** What the lease calls are for: who speaks for a user, for how long, and where pushes go. */
module LeaseUse {
  import opened Options
  import opened SessionLeases

  // ---------------------------------------------------------------- who passes

  /**
   A command passes only for the connection that was bound last: on exactly the gateway instance,
   connection and generation of a bind of its user, with no later bind of that user.
   */
  lemma PassesMeansBoundLast(es: seq<Event>, n: nat, uid: int, at: Gateway, connectionId: string, generation: int)
    returns (k: nat)
    requires n <= |es| && Passes(StateAt(es, n).redis, uid, at, connectionId, generation)
    ensures k < n && BindAt(es, k, uid) == Some(Lease(at.gatewayId, at.instanceId, connectionId, generation))
    ensures forall j :: k < j < n ==> BindAt(es, j, uid) == None
  {
    hide StateAt, BindAt;
    LeasesMadeInRun(es, n);
    var lease := Lease(at.gatewayId, at.instanceId, connectionId, generation);
    assert MadeBy(es, n, uid, lease);
    k :| 0 <= k < n && BindAt(es, k, uid) == Some(lease);
    StoredLeaseIsNewest(es, n);
    forall j | k < j < n
      ensures BindAt(es, j, uid) == None
    {
      if BindAt(es, j, uid).Some? {
        BindsDiffer(es, k, j, uid);
        BindRaises(es, j, uid);
        GenerationsRise(es, j + 1, n, uid);
      }
    }
  }

  /** And it does pass as soon as it is bound. */
  lemma BoundPasses(es: seq<Event>, k: nat, uid: int)
    requires k < |es| && BindAt(es, k, uid).Some?
    ensures var l := BindAt(es, k, uid).value;
            Passes(StateAt(es, k + 1).redis, uid, Gateway(l.gatewayId, l.instanceId), l.connectionId, l.generation)
    ensures var l := BindAt(es, k, uid).value;
            l == Lease(es[k].at.gatewayId, es[k].at.instanceId, es[k].connectionId, l.generation)
  {
    StoredLeaseIsNewest(es, k);
    var s := StateAt(es, k);
    assert StateAt(es, k + 1) == Step(s, es[k]);
    hide StateAt;
  }

  // ---------------------------------------------------------------- letting go

  /** A clear by the holder leaves nothing stored, so nobody passes; any other clear changes nothing. */
  lemma ClearReleases(s: State, uid: int, lease: Lease)
    ensures var u := Step(s, RedisClear(uid, lease));
            if Stored(s.redis, uid) == Some(lease) then Stored(u.redis, uid) == None else u == s
  {
  }

  lemma {:induction false} NothingStoredUntilBind(es: seq<Event>, i: nat, n: nat, uid: int)
    requires i <= n <= |es| && uid !in StateAt(es, i).redis.leases
    requires forall j :: i <= j < n ==> !(es[j].RedisBind? && es[j].uid == uid)
    ensures uid !in StateAt(es, n).redis.leases
    decreases n
  {
    hide Step;
    if i < n {
      NothingStoredUntilBind(es, i, n - 1, uid);
      NothingAppears(StateAt(es, n - 1), es[n - 1], uid);
    }
  }

  /** After the holder has cleared its lease no command of the user passes until the user is bound again. */
  lemma ClearedUntilBind(es: seq<Event>, k: nat, n: nat, uid: int, lease: Lease,
                         at: Gateway, connectionId: string, generation: int)
    requires k < n <= |es| && es[k] == RedisClear(uid, lease) && Stored(StateAt(es, k).redis, uid) == Some(lease)
    requires forall j :: k < j < n ==> !(es[j].RedisBind? && es[j].uid == uid)
    ensures !Passes(StateAt(es, n).redis, uid, at, connectionId, generation)
  {
    var s := StateAt(es, k);
    assert StateAt(es, k + 1) == Step(s, es[k]);
    assert uid !in Step(s, es[k]).redis.leases;
    hide Step, StateAt;
    NothingStoredUntilBind(es, k + 1, n, uid);
  }

  /** A closing session leaves its gateway's map exactly when the slot is its own or its occupant is gone. */
  lemma RemoveIff(s: State, at: Gateway, uid: int, connectionId: string)
    requires (at, uid) in s.sessions
    ensures var u := Step(s, LocalRemove(at, uid, connectionId));
            var occupant := s.sessions[(at, uid)].connectionId;
            && ((at, uid) in u.sessions <==> occupant != connectionId && occupant !in s.dead)
            && ((at, uid) in u.sessions ==> u == s)
            && (forall k :: k in s.sessions && k != (at, uid) ==> k in u.sessions && u.sessions[k] == s.sessions[k])
  {
  }

  // ---------------------------------------------------------------- holding on

  /** A refresh by the holder keeps the lease stored for exactly the time asked for. */
  lemma RefreshHolds(s: State, uid: int, lease: Lease, ttl: int, seconds: nat)
    requires Stored(s.redis, uid) == Some(lease) && ttl > 0
    ensures var u := Step(Step(s, Refresh(uid, lease, ttl)), Tick(seconds));
            Stored(u.redis, uid) == if seconds < ttl then Some(lease) else None
  {
  }

  // ---------------------------------------------------------------- pushes

  /**
   The Message node reads the user's lease and the gateway gets the push: it is queued exactly when
   the gateway's live session of the user is the connection that was read and its queue has room.
   */
  lemma ReadThenDeliver(s: State, uid: int, at: Gateway, room: bool)
    requires Stored(s.redis, uid).Some?
    ensures var l := Stored(s.redis, uid).value;
            var u := Step(Step(s, ReadLease(uid)), Deliver(at, Envelope(uid, l.connectionId, l.generation), room));
            var local := (at, uid) in s.sessions && s.sessions[(at, uid)].connectionId == l.connectionId
                         && s.sessions[(at, uid)].generation == l.generation && l.connectionId !in s.dead;
            u.pushes == s.pushes + if local && room then [Push(uid, at, l.connectionId, l.generation)] else []
  {
  }

  lemma DeathIsFinal(s: State, e: Event)
    ensures s.dead <= Step(s, e).dead
  {
  }

  lemma {:induction false} DeadStays(es: seq<Event>, i: nat, n: nat, connectionId: string)
    requires i <= n <= |es| && connectionId in StateAt(es, i).dead
    ensures connectionId in StateAt(es, n).dead
    decreases n
  {
    if i < n {
      DeadStays(es, i, n - 1, connectionId);
      hide Step;
      DeathIsFinal(StateAt(es, n - 1), es[n - 1]);
    }
  }

  lemma PushIsForTheLiving(s: State, e: Event)
    ensures var u := Step(s, e);
            |s.pushes| <= |u.pushes| <= |s.pushes| + 1 && u.pushes[..|s.pushes|] == s.pushes
            && (|s.pushes| < |u.pushes| ==> u.pushes[|s.pushes|].connectionId !in s.dead)
  {
  }

  lemma DieMarks(s: State, connectionId: string)
    ensures connectionId in Step(s, Die(connectionId)).dead && Step(s, Die(connectionId)).pushes == s.pushes
  {
  }

  lemma Unrolled(es: seq<Event>, n: nat)
    requires n < |es|
    ensures StateAt(es, n + 1) == Step(StateAt(es, n), es[n])
  {
  }

  /** Once a connection's session is gone nothing is ever queued on it again. */
  lemma {:induction false} DeadGetNothing(es: seq<Event>, i: nat, n: nat, connectionId: string)
    requires i < n <= |es| && es[i] == Die(connectionId)
    ensures var before, after := StateAt(es, i).pushes, StateAt(es, n).pushes;
            |before| <= |after| && forall k :: |before| <= k < |after| ==> after[k].connectionId != connectionId
    decreases n
  {
    hide Step, StateAt;
    Unrolled(es, i);
    DieMarks(StateAt(es, i), connectionId);
    if i + 1 < n {
      DeadGetNothing(es, i, n - 1, connectionId);
      DeadStays(es, i + 1, n - 1, connectionId);
      Unrolled(es, n - 1);
      PushIsForTheLiving(StateAt(es, n - 1), es[n - 1]);
      var before, mid, after := StateAt(es, i).pushes, StateAt(es, n - 1).pushes, StateAt(es, n).pushes;
      forall k | |before| <= k < |after|
        ensures after[k].connectionId != connectionId
      {
        assert k < |mid| ==> after[k] == after[..|mid|][k];
      }
    }
  }
}
