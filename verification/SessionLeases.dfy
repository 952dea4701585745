/**
 Session leases: which connection currently speaks for a user.  Redis holds one lease per user,
 fenced by a generation counter; every gateway keeps its own map of local sessions; the Message
 node compares a command against the lease and addresses a push with the lease it has read.
 */
module SessionLeases {
  import opened Options

  datatype Lease = Lease(gatewayId: string, instanceId: string, connectionId: string, generation: int)

  predicate Empty(l: Lease) {
    l.gatewayId == "" || l.instanceId == "" || l.connectionId == "" || l.generation <= 0
  }

  /** The generation keys, the lease keys with the time each expires, and the server's clock. */
  datatype Redis = Redis(generations: map<int, int>, leases: map<int, Lease>, deadlines: map<int, int>, now: int)

  const NO_KEYS := Redis(map[], map[], map[], 0)

  predicate BindAllowed(uid: int, gatewayId: string, instanceId: string, connectionId: string, ttl: int) {
    uid > 0 && gatewayId != "" && instanceId != "" && connectionId != "" && ttl > 0
  }

  /** INCR of a key that may not exist yet. */
  function Next(generations: map<int, int>, uid: int): int {
    (if uid in generations then generations[uid] else 0) + 1
  }

  /** The bind script: take the next generation and overwrite the lease with it. */
  function Bound(r: Redis, uid: int, gatewayId: string, instanceId: string, connectionId: string, ttl: int): (Redis, Lease) {
    var g := Next(r.generations, uid);
    var lease := Lease(gatewayId, instanceId, connectionId, g);
    (Redis(r.generations[uid := g], r.leases[uid := lease], r.deadlines[uid := r.now + ttl], r.now), lease)
  }

  predicate Holds(r: Redis, uid: int, lease: Lease) {
    uid > 0 && !Empty(lease) && uid in r.leases && r.leases[uid] == lease
  }

  /** The compare-and-delete script. */
  function Cleared(r: Redis, uid: int, lease: Lease): Redis {
    if Holds(r, uid, lease) then r.(leases := r.leases - {uid}, deadlines := r.deadlines - {uid}) else r
  }

  /** The compare-and-expire script. */
  function Refreshed(r: Redis, uid: int, lease: Lease, ttl: int): Redis {
    if ttl > 0 && Holds(r, uid, lease) then r.(deadlines := r.deadlines[uid := r.now + ttl]) else r
  }

  /** Time passes, and keys whose time is up disappear. */
  function Elapsed(r: Redis, seconds: nat): Redis {
    var now := r.now + seconds;
    r.(now := now,
       leases := map u | u in r.leases && u in r.deadlines && r.deadlines[u] > now :: r.leases[u],
       deadlines := map u | u in r.deadlines && r.deadlines[u] > now :: r.deadlines[u])
  }

  function Stored(r: Redis, uid: int): Option<Lease> {
    if uid > 0 && uid in r.leases && !Empty(r.leases[uid]) then Some(r.leases[uid]) else None
  }

  // ---------------------------------------------------------------- gateways and the Message node

  datatype Gateway = Gateway(gatewayId: string, instanceId: string)

  /** A push on its way to a gateway: it names the connection the Message node has read. */
  datatype Envelope = Envelope(uid: int, connectionId: string, generation: int)

  /** A push queued on a session's socket. */
  datatype Push = Push(uid: int, at: Gateway, connectionId: string, generation: int)

  /** How a bind's round trip to Redis can end. */
  datatype BindOutcome = Replied | AnswerLost | NotExecuted

  datatype State = State(
    redis: Redis,
    binding: set<(Gateway, int, Lease)>,          // Redis has answered, the local map is not yet written
    sessions: map<(Gateway, int), Lease>,         // the local maps; the lease names the session's connection
    dead: set<string>,                            // connections whose session object is gone
    envelopes: set<Envelope>,
    pushes: seq<Push>)

  const INITIAL := State(NO_KEYS, {}, map[], {}, {}, [])

  datatype Event =
    | RedisBind(uid: int, at: Gateway, connectionId: string, ttl: int, outcome: BindOutcome)
    | LocalBind(at: Gateway, uid: int, lease: Lease)
    | LocalRemove(at: Gateway, uid: int, connectionId: string)
    | RedisClear(uid: int, lease: Lease)
    | Refresh(uid: int, lease: Lease, ttl: int)
    | Tick(seconds: nat)
    | Evict(uid: int)                              // Redis drops the key for a reason of its own
    | Die(connectionId: string)
    | ReadLease(uid: int)
    | Deliver(at: Gateway, envelope: Envelope, room: bool)

  /** A gateway queues a push only on a live session with exactly the identity the envelope names. */
  predicate Accepts(local: Lease, dead: set<string>, e: Envelope) {
    local.connectionId !in dead && local.connectionId == e.connectionId && local.generation == e.generation
  }

  function Delivered(s: State, at: Gateway, e: Envelope): Option<Push> {
    if (at, e.uid) in s.sessions && Accepts(s.sessions[(at, e.uid)], s.dead, e) then
      Some(Push(e.uid, at, s.sessions[(at, e.uid)].connectionId, s.sessions[(at, e.uid)].generation))
    else None
  }

  /** A closing session leaves the local map unless another live session has taken its place. */
  predicate MayRemove(local: Lease, dead: set<string>, connectionId: string) {
    local.connectionId in dead || local.connectionId == connectionId
  }

  function Step(s: State, e: Event): State {
    match e
    case RedisBind(uid, at, connectionId, ttl, outcome) =>
      if !BindAllowed(uid, at.gatewayId, at.instanceId, connectionId, ttl) || outcome == NotExecuted then s
      else
        var (redis, lease) := Bound(s.redis, uid, at.gatewayId, at.instanceId, connectionId, ttl);
        s.(redis := redis, binding := if outcome == Replied then s.binding + {(at, uid, lease)} else s.binding)
    case LocalBind(at, uid, lease) =>
      if (at, uid, lease) !in s.binding then s
      else s.(binding := s.binding - {(at, uid, lease)}, sessions := s.sessions[(at, uid) := lease])
    case LocalRemove(at, uid, connectionId) =>
      if (at, uid) in s.sessions && MayRemove(s.sessions[(at, uid)], s.dead, connectionId) then s.(sessions := s.sessions - {(at, uid)}) else s
    case RedisClear(uid, lease) => s.(redis := Cleared(s.redis, uid, lease))
    case Refresh(uid, lease, ttl) => s.(redis := Refreshed(s.redis, uid, lease, ttl))
    case Tick(seconds) => s.(redis := Elapsed(s.redis, seconds))
    case Evict(uid) =>
      s.(redis := s.redis.(leases := s.redis.leases - {uid}, deadlines := s.redis.deadlines - {uid}))
    case Die(connectionId) => s.(dead := s.dead + {connectionId})
    case ReadLease(uid) =>
      (match Stored(s.redis, uid)
       case None => s
       case Some(l) => s.(envelopes := s.envelopes + {Envelope(uid, l.connectionId, l.generation)}))
    case Deliver(at, envelope, room) =>
      if envelope !in s.envelopes || !room then s
      else
        match Delivered(s, at, envelope)
        case None => s
        case Some(p) => s.(pushes := s.pushes + [p])
  }

  function StateAt(es: seq<Event>, n: nat): State
    requires n <= |es|
  {
    if n == 0 then INITIAL else Step(StateAt(es, n - 1), es[n - 1])
  }

  /** The Message node's check of a command against the stored lease. */
  predicate Passes(r: Redis, uid: int, at: Gateway, connectionId: string, generation: int) {
    Stored(r, uid) == Some(Lease(at.gatewayId, at.instanceId, connectionId, generation))
  }

  // ---------------------------------------------------------------- fencing

  function Generation(r: Redis, uid: int): int {
    if uid in r.generations then r.generations[uid] else 0
  }

  /** The lease that the k-th event of a run bound, if it bound one for `uid`. */
  function BindAt(es: seq<Event>, k: nat, uid: int): Option<Lease>
    requires k < |es|
  {
    var e := es[k];
    if e.RedisBind? && e.uid == uid && BindAllowed(uid, e.at.gatewayId, e.at.instanceId, e.connectionId, e.ttl)
       && e.outcome != NotExecuted
    then Some(Bound(StateAt(es, k).redis, uid, e.at.gatewayId, e.at.instanceId, e.connectionId, e.ttl).1)
    else None
  }

  /** A stored lease carries the newest generation of its user. */
  ghost predicate Newest(r: Redis) {
    forall uid :: uid in r.leases ==> !Empty(r.leases[uid]) && r.leases[uid].generation == Generation(r, uid)
  }

  ghost predicate Counting(r: Redis) {
    forall uid :: uid in r.generations ==> r.generations[uid] >= 1
  }

  lemma StepKeepsNewest(s: State, e: Event)
    requires Newest(s.redis) && Counting(s.redis)
    ensures Newest(Step(s, e).redis) && Counting(Step(s, e).redis)
    ensures forall uid :: Generation(s.redis, uid) <= Generation(Step(s, e).redis, uid)
  {
  }

  /** In every interleaving a stored lease belongs to the newest bind of its user. */
  lemma {:induction false} StoredLeaseIsNewest(es: seq<Event>, n: nat)
    requires n <= |es|
    ensures Newest(StateAt(es, n).redis) && Counting(StateAt(es, n).redis)
  {
    if n > 0 {
      StoredLeaseIsNewest(es, n - 1);
      hide Step, Newest, Counting;
      StepKeepsNewest(StateAt(es, n - 1), es[n - 1]);
    }
  }

  lemma {:induction false} GenerationsRise(es: seq<Event>, i: nat, j: nat, uid: int)
    requires i <= j <= |es|
    ensures Generation(StateAt(es, i).redis, uid) <= Generation(StateAt(es, j).redis, uid)
    decreases j
  {
    if i < j {
      hide Step, Generation;
      GenerationsRise(es, i, j - 1, uid);
      StoredLeaseIsNewest(es, j - 1);
      StepKeepsNewest(StateAt(es, j - 1), es[j - 1]);
    }
  }

  /**
   Fencing: once a user is bound again, whether or not the gateway learns of it, no command that
   carries an older generation passes the Message node's check, then or at any later time.
   */
  lemma Fenced(es: seq<Event>, k: nat, n: nat, uid: int, at: Gateway, connectionId: string, generation: int)
    requires k < n <= |es| && BindAt(es, k, uid).Some? && generation < BindAt(es, k, uid).value.generation
    ensures !Passes(StateAt(es, n).redis, uid, at, connectionId, generation)
  {
    hide StateAt, Newest, Passes, Generation, BindAt;
    BindRaises(es, k, uid);
    GenerationsRise(es, k + 1, n, uid);
    StoredLeaseIsNewest(es, n);
    OlderIsRefused(StateAt(es, n).redis, uid, at, connectionId, generation);
  }

  lemma BindRaises(es: seq<Event>, k: nat, uid: int)
    requires k < |es| && BindAt(es, k, uid).Some?
    ensures Generation(StateAt(es, k + 1).redis, uid) == BindAt(es, k, uid).value.generation
  {
    var s := StateAt(es, k);
    assert StateAt(es, k + 1) == Step(s, es[k]);
    hide StateAt;
  }

  lemma OlderIsRefused(r: Redis, uid: int, at: Gateway, connectionId: string, generation: int)
    requires Newest(r) && generation < Generation(r, uid)
    ensures !Passes(r, uid, at, connectionId, generation)
  {
  }

  // ---------------------------------------------------------------- whose lease expires when

  ghost predicate Timed(r: Redis) {
    forall uid :: uid in r.leases ==> uid in r.deadlines && r.now < r.deadlines[uid]
  }

  lemma StepKeepsTimed(s: State, e: Event)
    requires Timed(s.redis)
    ensures Timed(Step(s, e).redis) && s.redis.now <= Step(s, e).redis.now
  {
  }

  lemma {:induction false} StoredLeaseIsTimed(es: seq<Event>, n: nat)
    requires n <= |es|
    ensures Timed(StateAt(es, n).redis)
  {
    if n > 0 {
      StoredLeaseIsTimed(es, n - 1);
      hide Step, Timed;
      StepKeepsTimed(StateAt(es, n - 1), es[n - 1]);
    }
  }

  /** The k-th event set the expiry of the lease: its own bind, or a refresh that names exactly it. */
  ghost predicate SetsDeadline(es: seq<Event>, k: nat, uid: int, lease: Lease, deadline: int)
    requires k < |es|
  {
    || (BindAt(es, k, uid) == Some(lease) && deadline == StateAt(es, k).redis.now + es[k].ttl)
    || (es[k].Refresh? && es[k].uid == uid && es[k].lease == lease && es[k].ttl > 0
        && deadline == StateAt(es, k).redis.now + es[k].ttl)
  }

  lemma DeadlineStep(s: State, e: Event, uid: int)
    requires Timed(s.redis) && uid in Step(s, e).redis.leases
    ensures var r, r' := s.redis, Step(s, e).redis;
            var lease := r'.leases[uid];
            && uid in r'.deadlines
            && (|| (uid in r.leases && r.leases[uid] == lease && r.deadlines[uid] == r'.deadlines[uid])
                || (e.Refresh? && e.uid == uid && e.lease == lease && e.ttl > 0 && r'.deadlines[uid] == r.now + e.ttl)
                || (e.RedisBind? && e.uid == uid && BindAllowed(uid, e.at.gatewayId, e.at.instanceId, e.connectionId, e.ttl)
                    && e.outcome != NotExecuted && r'.deadlines[uid] == r.now + e.ttl
                    && lease == Bound(r, uid, e.at.gatewayId, e.at.instanceId, e.connectionId, e.ttl).1))
  {
  }

  /**
   In every run a stored lease has time left, and how much was set by its own bind or by a refresh
   that names exactly it: a stale refresh never lengthens or shortens a newer lease.
   */
  lemma {:induction false} DeadlineIsTheHolders(es: seq<Event>, n: nat, uid: int) returns (k: nat)
    requires n <= |es| && uid in StateAt(es, n).redis.leases
    ensures uid in StateAt(es, n).redis.deadlines && StateAt(es, n).redis.now < StateAt(es, n).redis.deadlines[uid]
    ensures k < n && SetsDeadline(es, k, uid, StateAt(es, n).redis.leases[uid], StateAt(es, n).redis.deadlines[uid])
  {
    StoredLeaseIsTimed(es, n);
    assert n > 0;
    var s, e := StateAt(es, n - 1), es[n - 1];
    assert StateAt(es, n) == Step(s, e);
    StoredLeaseIsTimed(es, n - 1);
    DeadlineStep(s, e, uid);
    hide Step, Timed;
    var lease := StateAt(es, n).redis.leases[uid];
    var kept := uid in s.redis.leases && s.redis.leases[uid] == lease
                && s.redis.deadlines[uid] == StateAt(es, n).redis.deadlines[uid];
    if kept {
      k := DeadlineIsTheHolders(es, n - 1, uid);
    } else {
      k := n - 1;
    }
  }

  /** The event is no newer bind of the user, no eviction, and no clear or refresh of this very lease. */
  ghost predicate Spares(e: Event, uid: int, lease: Lease) {
    && !(e.RedisBind? && e.uid == uid) && e != Evict(uid) && e != RedisClear(uid, lease)
    && !(e.Refresh? && e.uid == uid && e.lease == lease)
  }

  lemma SpareStep(s: State, e: Event, uid: int)
    requires Timed(s.redis) && uid in s.redis.leases && Spares(e, uid, s.redis.leases[uid])
    ensures var r := Step(s, e).redis;
            if s.redis.deadlines[uid] <= r.now then uid !in r.leases
            else uid in r.leases && r.leases[uid] == s.redis.leases[uid] && uid in r.deadlines
                 && r.deadlines[uid] == s.redis.deadlines[uid]
  {
  }

  /**
   Until a newer bind, an eviction or a call of its own holder, a lease is stored unchanged up to
   its deadline and gone from then on: refreshes and clears that name any other lease of the same
   user, stale ones included, do not touch it.
   */
  lemma {:induction false} LeaseStandsUntilDeadline(es: seq<Event>, i: nat, n: nat, uid: int)
    requires i <= n <= |es| && uid in StateAt(es, i).redis.leases && uid in StateAt(es, i).redis.deadlines
    requires forall k :: i <= k < n ==> Spares(es[k], uid, StateAt(es, i).redis.leases[uid])
    ensures var r, r' := StateAt(es, i).redis, StateAt(es, n).redis;
            if r.deadlines[uid] <= r'.now then uid !in r'.leases
            else uid in r'.leases && r'.leases[uid] == r.leases[uid] && uid in r'.deadlines
                 && r'.deadlines[uid] == r.deadlines[uid]
    decreases n
  {
    hide Step;
    StoredLeaseIsTimed(es, i);
    if i < n {
      LeaseStandsUntilDeadline(es, i, n - 1, uid);
      StoredLeaseIsTimed(es, n - 1);
      var s, e := StateAt(es, n - 1), es[n - 1];
      assert StateAt(es, n) == Step(s, e);
      hide StateAt, Timed;
      StepKeepsTimed(s, e);
      assert Spares(e, uid, StateAt(es, i).redis.leases[uid]);
      if uid in s.redis.leases {
        SpareStep(s, e, uid);
      } else {
        NothingAppears(s, e, uid);
      }
    }
  }

  lemma NothingAppears(s: State, e: Event, uid: int)
    requires uid !in s.redis.leases && !(e.RedisBind? && e.uid == uid)
    ensures uid !in Step(s, e).redis.leases
  {
  }

  // ---------------------------------------------------------------- a generation names one connection

  /** A lease handed to a gateway, stored in Redis or kept in a local map is the one its bind made. */
  ghost predicate MadeBy(es: seq<Event>, n: nat, uid: int, lease: Lease)
    requires n <= |es|
  {
    exists k :: 0 <= k < n && BindAt(es, k, uid) == Some(lease)
  }

  lemma MadeByLater(es: seq<Event>, n: nat, m: nat, uid: int, lease: Lease)
    requires n <= m <= |es| && MadeBy(es, n, uid, lease)
    ensures MadeBy(es, m, uid, lease)
  {
  }

  /** Two binds of one user never share a generation. */
  lemma BindsDiffer(es: seq<Event>, j: nat, k: nat, uid: int)
    requires j < k < |es| && BindAt(es, j, uid).Some? && BindAt(es, k, uid).Some?
    ensures BindAt(es, j, uid).value.generation < BindAt(es, k, uid).value.generation
  {
    GenerationsRise(es, j + 1, k, uid);
    StoredLeaseIsNewest(es, j);
    StoredLeaseIsNewest(es, k);
  }

  lemma GenerationNamesLease(es: seq<Event>, n: nat, uid: int, a: Lease, b: Lease)
    requires n <= |es| && MadeBy(es, n, uid, a) && MadeBy(es, n, uid, b) && a.generation == b.generation
    ensures a == b
  {
    hide BindAt;
    var j :| 0 <= j < n && BindAt(es, j, uid) == Some(a);
    var k :| 0 <= k < n && BindAt(es, k, uid) == Some(b);
    if j < k {
      BindsDiffer(es, j, k, uid);
    } else if k < j {
      BindsDiffer(es, k, j, uid);
    }
  }

  ghost predicate LeasesMade(es: seq<Event>, n: nat, s: State)
    requires n <= |es|
  {
    && (forall uid :: uid in s.redis.leases ==> MadeBy(es, n, uid, s.redis.leases[uid]))
    && (forall b :: b in s.binding ==> MadeBy(es, n, b.1, b.2) && b.2.gatewayId == b.0.gatewayId && b.2.instanceId == b.0.instanceId)
    && (forall k :: k in s.sessions ==>
          && MadeBy(es, n, k.1, s.sessions[k])
          && s.sessions[k].gatewayId == k.0.gatewayId && s.sessions[k].instanceId == k.0.instanceId)
  }

  lemma LeasesMadeLater(es: seq<Event>, n: nat, s: State)
    requires n < |es| && LeasesMade(es, n, s)
    ensures LeasesMade(es, n + 1, s)
  {
    hide BindAt;
    forall uid, lease | MadeBy(es, n, uid, lease)
      ensures MadeBy(es, n + 1, uid, lease)
    {
      MadeByLater(es, n, n + 1, uid, lease);
    }
  }

  lemma LeasesMadeStep(es: seq<Event>, n: nat, s: State, e: Event)
    requires n <= |es| && LeasesMade(es, n, s)
    requires e.RedisBind? && Step(s, e).redis != s.redis ==>
               MadeBy(es, n, e.uid, Bound(s.redis, e.uid, e.at.gatewayId, e.at.instanceId, e.connectionId, e.ttl).1)
    ensures LeasesMade(es, n, Step(s, e))
  {
    hide MadeBy;
  }

  /** A bind that changes Redis makes the lease it stores. */
  lemma BindMakes(es: seq<Event>, n: nat)
    requires n < |es|
    ensures var s, e := StateAt(es, n), es[n];
            e.RedisBind? && Step(s, e).redis != s.redis ==>
              MadeBy(es, n + 1, e.uid, Bound(s.redis, e.uid, e.at.gatewayId, e.at.instanceId, e.connectionId, e.ttl).1)
  {
    hide StateAt, Bound;
    var s, e := StateAt(es, n), es[n];
    if e.RedisBind? && Step(s, e).redis != s.redis {
      assert BindAt(es, n, e.uid) ==
             Some(Bound(s.redis, e.uid, e.at.gatewayId, e.at.instanceId, e.connectionId, e.ttl).1);
    }
  }

  lemma LeasesMadeNext(es: seq<Event>, n: nat)
    requires n < |es| && LeasesMade(es, n, StateAt(es, n))
    ensures LeasesMade(es, n + 1, Step(StateAt(es, n), es[n]))
  {
    hide LeasesMade, StateAt, Step, MadeBy, Bound;
    LeasesMadeLater(es, n, StateAt(es, n));
    BindMakes(es, n);
    LeasesMadeStep(es, n + 1, StateAt(es, n), es[n]);
  }

  lemma {:induction false} LeasesMadeInRun(es: seq<Event>, n: nat)
    requires n <= |es|
    ensures LeasesMade(es, n, StateAt(es, n))
  {
    hide Step;
    if n > 0 {
      LeasesMadeInRun(es, n - 1);
      hide LeasesMade;
      LeasesMadeNext(es, n - 1);
    }
  }

  // ---------------------------------------------------------------- delivery safety

  ghost predicate ReadAs(es: seq<Event>, i: nat, e: Envelope)
    requires i < |es|
  {
    && es[i] == ReadLease(e.uid)
    && Stored(StateAt(es, i).redis, e.uid).Some?
    && Stored(StateAt(es, i).redis, e.uid).value.connectionId == e.connectionId
    && Stored(StateAt(es, i).redis, e.uid).value.generation == e.generation
  }

  lemma {:induction false} EnvelopeWasRead(es: seq<Event>, n: nat, e: Envelope) returns (i: nat)
    requires n <= |es| && e in StateAt(es, n).envelopes
    ensures i < n && ReadAs(es, i, e)
  {
    assert n > 0 && StateAt(es, n) == Step(StateAt(es, n - 1), es[n - 1]);
    hide StateAt;
    if e in StateAt(es, n - 1).envelopes {
      i := EnvelopeWasRead(es, n - 1, e);
    } else {
      i := n - 1;
    }
  }

  /**
   A push is only ever queued on the connection that held the recipient's lease when the Message
   node read it, on the gateway instance that lease names: the generation alone guarantees it,
   whichever gateway the envelope reaches and however the two halves of a bind are delayed.
   */
  lemma {:induction false} DeliverySafe(es: seq<Event>, n: nat, k: nat) returns (i: nat)
    requires n <= |es| && k < |StateAt(es, n).pushes|
    ensures i < n && es[i] == ReadLease(StateAt(es, n).pushes[k].uid)
    ensures var p := StateAt(es, n).pushes[k];
            Stored(StateAt(es, i).redis, p.uid) == Some(Lease(p.at.gatewayId, p.at.instanceId, p.connectionId, p.generation))
  {
    assert n > 0;
    var s, e := StateAt(es, n - 1), es[n - 1];
    assert StateAt(es, n) == Step(s, e);
    hide StateAt;
    PushStep(s, e, k);
    hide Step;
    if k < |s.pushes| {
      i := DeliverySafe(es, n - 1, k);
    } else {
      i := EnvelopeWasRead(es, n - 1, e.envelope);
      LocalIsRead(es, n - 1, i, e.at, e.envelope);
    }
  }

  /** A step leaves the pushes alone, or queues one on a session that the envelope names. */
  lemma PushStep(s: State, e: Event, k: nat)
    requires k < |Step(s, e).pushes|
    ensures if k < |s.pushes| then Step(s, e).pushes[k] == s.pushes[k]
            else
              && e.Deliver? && e.envelope in s.envelopes && (e.at, e.envelope.uid) in s.sessions
              && var local := s.sessions[(e.at, e.envelope.uid)];
                 && local.connectionId == e.envelope.connectionId && local.generation == e.envelope.generation
                 && Step(s, e).pushes[k] == Push(e.envelope.uid, e.at, local.connectionId, local.generation)
  {
  }

  /** A local session with the generation of a lease that was read is that lease. */
  lemma LocalIsRead(es: seq<Event>, n: nat, i: nat, at: Gateway, e: Envelope)
    requires i < n <= |es| && ReadAs(es, i, e) && (at, e.uid) in StateAt(es, n).sessions
    requires StateAt(es, n).sessions[(at, e.uid)].generation == e.generation
    ensures var read := Stored(StateAt(es, i).redis, e.uid).value;
            read == Lease(at.gatewayId, at.instanceId, e.connectionId, e.generation)
  {
    hide StateAt, MadeBy;
    LeasesMadeInRun(es, n);
    LeasesMadeInRun(es, i);
    var local, read := StateAt(es, n).sessions[(at, e.uid)], Stored(StateAt(es, i).redis, e.uid).value;
    MadeByLater(es, i, n, e.uid, read);
    GenerationNamesLease(es, n, e.uid, local, read);
  }

  // ---------------------------------------------------------------- what the two-step bind does not give

  const HERE := Gateway("hunan", "1")

  /** Two logins of one user whose local halves finish in the opposite order. */
  const OVERTAKEN: seq<Event> := [
    RedisBind(7, HERE, "first", 60, Replied),
    RedisBind(7, HERE, "second", 60, Replied),
    LocalBind(HERE, 7, Lease("hunan", "1", "second", 2)),
    LocalBind(HERE, 7, Lease("hunan", "1", "first", 1))]

  /** The local map may keep an older connection than Redis, and then every push read from Redis is refused. */
  lemma LocalMapMayLag()
    ensures var s := StateAt(OVERTAKEN, 4);
            && (HERE, 7) in s.sessions && s.sessions[(HERE, 7)].generation == 1 && Generation(s.redis, 7) == 2
            && Stored(s.redis, 7).Some?
            && Delivered(s, HERE, Envelope(7, Stored(s.redis, 7).value.connectionId, 2)) == None
  {
    var first, second := Lease("hunan", "1", "first", 1), Lease("hunan", "1", "second", 2);
    var s1 := Step(INITIAL, OVERTAKEN[0]);
    assert StateAt(OVERTAKEN, 0) == INITIAL && StateAt(OVERTAKEN, 1) == s1;
    assert s1 == State(Redis(map[7 := 1], map[7 := first], map[7 := 60], 0), {(HERE, 7, first)}, map[], {}, {}, []);
    var s2 := StateAt(OVERTAKEN, 2);
    assert s2.redis.generations[7] == 2 && s2.redis.leases[7] == second;
    assert (HERE, 7, first) in s2.binding && (HERE, 7, second) in s2.binding;
    assert StateAt(OVERTAKEN, 3) == Step(s2, OVERTAKEN[2]);
    assert StateAt(OVERTAKEN, 4) == Step(StateAt(OVERTAKEN, 3), OVERTAKEN[3]);
  }

  /**
   The local half of a bind makes pushes reach the connection exactly when no newer bind has
   overtaken it: the lease it writes is the one Redis still stores.
   */
  lemma BindServesIff(es: seq<Event>, n: nat, at: Gateway, uid: int, lease: Lease)
    requires n <= |es| && (at, uid, lease) in StateAt(es, n).binding && Stored(StateAt(es, n).redis, uid).Some?
    requires Stored(StateAt(es, n).redis, uid).value.connectionId !in StateAt(es, n).dead
    ensures var s := StateAt(es, n);
            var l := Stored(s.redis, uid).value;
            Delivered(Step(s, LocalBind(at, uid, lease)), at, Envelope(uid, l.connectionId, l.generation)).Some? <==> l == lease
  {
    var s := StateAt(es, n);
    var l := Stored(s.redis, uid).value;
    LeasesMadeInRun(es, n);
    if l.generation == lease.generation {
      GenerationNamesLease(es, n, uid, l, lease);
    }
  }
}
