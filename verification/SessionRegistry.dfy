/**
 The objects that carry out the lease protocol: the Redis scripts and a gateway's local map.  A
 registry is one gateway of the lease runs: `Reflects(s)` says that it and Redis look as they do
 in the global state `s`, and every operation carries that over to the next state of the run.
 */
module SessionRegistry {
  import opened Options
  import opened SessionLeases

  datatype DeliveryStatus = Offline | StaleRoute | Backpressured | Queued

  class RedisDao {
    var generations: map<int, int>
    var leases: map<int, Lease>
    var deadlines: map<int, int>
    var now: int

    function View(): Redis
      reads this
    {
      Redis(generations, leases, deadlines, now)
    }

    constructor ()
      ensures View() == NO_KEYS
    {
      generations, leases, deadlines, now := map[], map[], map[], 0;
    }

    /** Returns the new generation, or -1 when the arguments are unusable, nothing ran, or the answer was lost. */
    method BindSessionLease(
      uid: int, gatewayId: string, instanceId: string, connectionId: string, ttlSeconds: int, outcome: BindOutcome)
      returns (generation: int)
      modifies this
      ensures var runs := BindAllowed(uid, gatewayId, instanceId, connectionId, ttlSeconds) && outcome != NotExecuted;
              && View() == (if runs then Bound(old(View()), uid, gatewayId, instanceId, connectionId, ttlSeconds).0 else old(View()))
              && generation == if runs && outcome == Replied then Next(old(generations), uid) else -1
    {
      if uid <= 0 || gatewayId == "" || instanceId == "" || connectionId == "" || ttlSeconds <= 0 || outcome == NotExecuted {
        return -1;
      }
      var next := 1;
      if uid in generations {
        next := generations[uid] + 1;
      }
      generations := generations[uid := next];
      leases := leases[uid := Lease(gatewayId, instanceId, connectionId, next)];
      deadlines := deadlines[uid := now + ttlSeconds];
      if outcome == AnswerLost {
        return -1;
      }
      return next;
    }

    method GetSessionLease(uid: int) returns (lease: Option<Lease>)
      ensures lease == Stored(View(), uid)
    {
      if uid <= 0 || uid !in leases || Empty(leases[uid]) {
        return None;
      }
      return Some(leases[uid]);
    }

    /** Renews the expiry exactly of the lease it names, and tells whether that lease is still stored. */
    method RefreshSessionLease(uid: int, lease: Lease, ttlSeconds: int) returns (held: bool)
      modifies this`deadlines
      ensures View() == Refreshed(old(View()), uid, lease, ttlSeconds)
      ensures ttlSeconds > 0 && !Empty(lease) ==> (held <==> Stored(View(), uid) == Some(lease))
    {
      if uid <= 0 || Empty(lease) || ttlSeconds <= 0 {
        return false;
      }
      if uid !in leases || leases[uid] != lease {
        return false;
      }
      deadlines := deadlines[uid := now + ttlSeconds];
      return true;
    }

    method ClearSessionLease(uid: int, lease: Lease) returns (gone: bool)
      modifies this`leases, this`deadlines
      ensures View() == Cleared(old(View()), uid, lease)
      ensures uid > 0 && !Empty(lease) ==> (gone <==> uid !in leases)
      ensures Stored(View(), uid) != Some(lease)
    {
      if uid <= 0 || Empty(lease) {
        return false;
      }
      if uid !in leases {
        return true;
      }
      if leases[uid] != lease {
        return false;
      }
      leases := leases - {uid};
      deadlines := deadlines - {uid};
      return true;
    }
  }

  class SessionRegistry {
    const gatewayId: string
    const instanceId: string
    const leaseTtlSeconds: int
    const redis: RedisDao
    var sessions: map<int, Lease>
    var dead: set<string>               // connections whose session object is gone

    function Here(): Gateway {
      Gateway(gatewayId, instanceId)
    }

    /** This gateway's part of the global state is what the objects hold. */
    ghost predicate Reflects(s: State)
      reads this, redis
    {
      && s.redis == redis.View() && s.dead == dead
      && (forall uid :: uid in sessions <==> (Here(), uid) in s.sessions)
      && (forall uid :: uid in sessions ==> sessions[uid] == s.sessions[(Here(), uid)])
    }

    constructor (gatewayId: string, instanceId: string, leaseTtlSeconds: int, redis: RedisDao)
      ensures this.gatewayId == gatewayId && this.instanceId == instanceId && this.leaseTtlSeconds == leaseTtlSeconds
      ensures this.redis == redis && sessions == map[] && dead == {}
      ensures redis.View() == NO_KEYS ==> Reflects(INITIAL)
    {
      this.gatewayId, this.instanceId, this.leaseTtlSeconds, this.redis := gatewayId, instanceId, leaseTtlSeconds, redis;
      sessions, dead := map[], {};
    }

    /** First half of a bind: publish the lease.  The local map is written in a second step. */
    method Publish(uid: int, connectionId: string, outcome: BindOutcome, ghost s: State) returns (lease: Option<Lease>)
      requires Reflects(s) && Counting(s.redis)
      modifies redis
      ensures Reflects(Step(s, RedisBind(uid, Here(), connectionId, leaseTtlSeconds, outcome)))
      ensures lease.Some? ==>
                var u := Step(s, RedisBind(uid, Here(), connectionId, leaseTtlSeconds, outcome));
                && (Here(), uid, lease.value) in u.binding && lease.value.connectionId == connectionId
                && Passes(u.redis, uid, Here(), connectionId, lease.value.generation)
      ensures lease.None? ==> Step(s, RedisBind(uid, Here(), connectionId, leaseTtlSeconds, outcome)).binding == s.binding
    {
      var generation := redis.BindSessionLease(uid, gatewayId, instanceId, connectionId, leaseTtlSeconds, outcome);
      if generation <= 0 {
        return None;
      }
      return Some(Lease(gatewayId, instanceId, connectionId, generation));
    }

    /**
     Second half: take over the user's slot.  From then on no envelope reaches another connection
     of the user here, and the live session that was reached before, if any, is told to close.
     */
    method TakeOver(uid: int, lease: Lease, ghost s: State) returns (toClose: Option<string>)
      requires Reflects(s) && (Here(), uid, lease) in s.binding
      modifies this`sessions
      ensures Reflects(Step(s, LocalBind(Here(), uid, lease)))
      ensures forall c :: toClose == Some(c) <==>
                c != lease.connectionId && exists g :: Delivered(s, Here(), Envelope(uid, c, g)).Some?
      ensures forall c, g :: Delivered(Step(s, LocalBind(Here(), uid, lease)), Here(), Envelope(uid, c, g)).Some? ==>
                c == lease.connectionId && g == lease.generation
    {
      toClose := None;
      if uid in sessions && sessions[uid].connectionId !in dead && sessions[uid].connectionId != lease.connectionId {
        toClose := Some(sessions[uid].connectionId);
        assert Delivered(s, Here(), Envelope(uid, sessions[uid].connectionId, sessions[uid].generation)).Some?;
      }
      sessions := sessions[uid := lease];
    }

    method Refresh(uid: int, lease: Lease, ghost s: State) returns (held: bool)
      requires Reflects(s)
      modifies redis`deadlines
      ensures Reflects(Step(s, Event.Refresh(uid, lease, leaseTtlSeconds)))
    {
      held := redis.RefreshSessionLease(uid, lease, leaseTtlSeconds);
    }

    /** Forget a closed session, and then release its lease unless a newer bind already owns it. */
    method Remove(uid: int, connectionId: string, lease: Lease, ghost s: State)
      requires Reflects(s)
      modifies this`sessions, redis`leases, redis`deadlines
      ensures var u := Step(s, LocalRemove(Here(), uid, connectionId));
              Reflects(if u.sessions == s.sessions then s else Step(u, RedisClear(uid, lease)))
      ensures uid in sessions <==> uid in old(sessions) && old(sessions)[uid].connectionId !in dead + {connectionId}
      ensures uid in old(sessions) && uid !in sessions ==> Stored(redis.View(), uid) != Some(lease)
    {
      if uid !in sessions {
        return;
      }
      if sessions[uid].connectionId !in dead && sessions[uid].connectionId != connectionId {
        return;
      }
      sessions := sessions - {uid};
      var _ := redis.ClearSessionLease(uid, lease);
      assert (Here(), uid) !in Step(s, LocalRemove(Here(), uid, connectionId)).sessions;
    }

    /** `room` says whether the session's write queue still takes a frame. */
    method Deliver(e: Envelope, room: bool, ghost s: State) returns (status: DeliveryStatus)
      requires Reflects(s) && e in s.envelopes
      ensures Reflects(Step(s, Event.Deliver(Here(), e, room)))
      ensures Step(s, Event.Deliver(Here(), e, room)).pushes ==
              s.pushes + if status == Queued then [Push(e.uid, Here(), e.connectionId, e.generation)] else []
      ensures status == Backpressured <==> !room && Delivered(s, Here(), e).Some?
      ensures status == Offline <==> forall c, g :: Delivered(s, Here(), Envelope(e.uid, c, g)).None?
    {
      if e.uid !in sessions {
        return Offline;
      }
      var lease := sessions[e.uid];
      if lease.connectionId in dead {
        return Offline;
      }
      assert Delivered(s, Here(), Envelope(e.uid, lease.connectionId, lease.generation)).Some?;
      if lease.connectionId != e.connectionId || lease.generation != e.generation {
        return StaleRoute;
      }
      if !room {
        return Backpressured;
      }
      return Queued;
    }
  }

  /** The Message node's check before it runs a command that arrived over a gateway's stream. */
  method MayRun(redis: RedisDao, uid: int, at: Gateway, connectionId: string, generation: int) returns (passes: bool)
    ensures passes <==> Passes(redis.View(), uid, at, connectionId, generation)
  {
    var lease := redis.GetSessionLease(uid);
    if lease.None? || lease.value.gatewayId != at.gatewayId || lease.value.instanceId != at.instanceId
       || lease.value.connectionId != connectionId || lease.value.generation != generation {
      return false;
    }
    return true;
  }
}
