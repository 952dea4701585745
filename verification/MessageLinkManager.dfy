/** The gateway's table of forwarded commands, each call run to its end without interruption. */
module MessageLinkManager {
  import opened Options
  import opened CommandRouting

  /** What a retry finds: the clock, the link selected away from the failed node, room on its queue. */
  datatype Attempt = Attempt(now: nat, target: Option<string>, room: bool)

  /** The three critical sections the retry pass runs for one collected request id. */
  function RetryOne(m: Manager, node: string, id: string, a: Attempt): Manager {
    if id !in m.pending then Step(m, Take(node, id))
    else
      var resent := Step(Step(m, Take(node, id)), Resend(m.pending[id].token, a.now, a.target, a.room));
      match a.target
      case None => resent
      case Some(link) => Step(resent, Relink(id, link))
  }

  function RetryAll(m: Manager, node: string, ids: seq<string>, answer: string -> Attempt): Manager
    decreases |ids|
  {
    if ids == [] then m else RetryAll(RetryOne(m, node, ids[0], answer(ids[0])), node, ids[1..], answer)
  }

  lemma RetryAllNext(m: Manager, node: string, id: string, rest: seq<string>, answer: string -> Attempt)
    ensures RetryAll(m, node, [id] + rest, answer) == RetryAll(RetryOne(m, node, id, answer(id)), node, rest, answer)
  {
    hide RetryOne;
    assert ([id] + rest)[1..] == rest;
  }

  lemma RetryAllDone(m: Manager, node: string, answer: string -> Attempt)
    ensures RetryAll(m.(collected := Pairs(node, [])), node, [], answer) == m.(collected := {})
  {
    assert Pairs(node, []) == {};
  }

  /** Collecting marks exactly the ids that wait on the node. */
  lemma CollectIs(m: Manager, node: string, ids: seq<string>)
    requires m.collected == {} && forall id :: id in ids <==> id in m.pending && m.pending[id].linkId == node
    ensures Step(m, Collect(node)) == m.(collected := Pairs(node, ids))
  {
    assert Step(m, Collect(node)).collected == Pairs(node, ids);
  }

  /** The tokens of the entries that are not to be done any more. */
  ghost function CalledTokens(abandoned: map<string, Entry>, todo: set<string>): set<nat> {
    set id | id in abandoned && id !in todo :: abandoned[id].token
  }

  lemma CalledNext(abandoned: map<string, Entry>, todo: set<string>, id: string, next: nat)
    requires TokensDistinct(abandoned, next) && todo <= abandoned.Keys && id in todo
    ensures abandoned[id].token !in CalledTokens(abandoned, todo)
    ensures CalledTokens(abandoned, todo - {id}) == CalledTokens(abandoned, todo) + {abandoned[id].token}
  {
  }

  lemma CalledEnds(abandoned: map<string, Entry>)
    ensures CalledTokens(abandoned, abandoned.Keys) == {} && CalledTokens(abandoned, {}) == Tokens(abandoned)
  {
  }

  ghost predicate NoRepeats(ids: seq<string>) {
    forall i, j :: 0 <= i < j < |ids| ==> ids[i] != ids[j]
  }

  ghost function Pairs(node: string, ids: seq<string>): set<(string, string)> {
    set i | 0 <= i < |ids| :: (node, ids[i])
  }

  lemma PairsTail(node: string, ids: seq<string>)
    requires ids != [] && NoRepeats(ids)
    ensures (node, ids[0]) in Pairs(node, ids)
    ensures Pairs(node, ids) - {(node, ids[0])} == Pairs(node, ids[1..])
  {
    var tail := ids[1..];
    forall p | p in Pairs(node, ids) && p != (node, ids[0])
      ensures p in Pairs(node, tail)
    {
      var i :| 0 <= i < |ids| && p == (node, ids[i]);
      assert tail[i - 1] == ids[i];
    }
    assert forall i :: 0 <= i < |tail| ==> tail[i] == ids[i + 1];
  }

  lemma RetryOneKeepsCalls(m: Manager, node: string, id: string, a: Attempt)
    requires CallsInv(m)
    ensures CallsInv(RetryOne(m, node, id, a))
  {
    hide Step, CallsInv;
    StepKeepsCalls(m, Take(node, id));
    if id in m.pending {
      var taken := Step(m, Take(node, id));
      StepKeepsCalls(taken, Resend(m.pending[id].token, a.now, a.target, a.room));
      if a.target.Some? {
        StepKeepsCalls(Step(taken, Resend(m.pending[id].token, a.now, a.target, a.room)), Relink(id, a.target.value));
      }
    }
  }

  /** One retry written out: the entry is charged one attempt, and moves only if the frame is queued. */
  function Retried(m: Manager, node: string, id: string, a: Attempt, done: Manager): Manager {
    if id !in m.pending || m.pending[id].attempts >= 1 || !CanRetry(m.pending[id].command.serviceId) then done
    else
      var entry := m.pending[id];
      var charged := entry.(attempts := entry.attempts + 1);
      if (entry.command.deadline > 0 && entry.command.deadline <= a.now) || a.target.None?
         || a.target.value == node || !a.room
      then done.(pending := m.pending[id := charged])
      else done.(pending := m.pending[id := charged][id := charged.(linkId := a.target.value)],
                 sent := m.sent + [Sent(entry.token, entry.command, a.target.value, true, a.now)])
  }

  /** With no retry and no relink open, resending and relinking do nothing. */
  lemma NothingOpen(m: Manager, token: nat, id: string, a: Attempt)
    requires m.retrying == map[] && m.relinking == {}
    ensures Step(m, Resend(token, a.now, a.target, a.room)) == m
    ensures a.target.Some? ==> Step(m, Relink(id, a.target.value)) == m
  {
  }

  /** A retry that was just taken, resent and noted. */
  lemma ResendIs(m: Manager, token: nat, c: Command, node: string, a: Attempt)
    requires m.retrying == map[token := (c, node)] && m.relinking == {} && c.requestId in m.pending
    ensures var dropped := (c.deadline > 0 && c.deadline <= a.now) || a.target.None? || a.target.value == node || !a.room;
            var resent := Step(m, Resend(token, a.now, a.target, a.room));
            var done := if a.target.None? then resent else Step(resent, Relink(c.requestId, a.target.value));
            done == if dropped then m.(retrying := map[])
                    else m.(retrying := map[], sent := m.sent + [Sent(token, c, a.target.value, true, a.now)],
                            pending := m.pending[c.requestId := m.pending[c.requestId].(linkId := a.target.value)])
  {
    var none: map<nat, (Command, string)> := map[];
    assert none[token := (c, node)] - {token} == none;
    if a.target.Some? {
      assert {(c.requestId, a.target.value)} - {(c.requestId, a.target.value)} == {};
    }
  }

  lemma TakeIs(m: Manager, node: string, id: string)
    requires m.retrying == map[] && (node, id) in m.collected && id in m.pending
    ensures var entry, done := m.pending[id], m.(collected := m.collected - {(node, id)});
            Step(m, Take(node, id)) ==
            if entry.attempts >= 1 || !CanRetry(entry.command.serviceId) then done
            else done.(pending := m.pending[id := entry.(attempts := entry.attempts + 1)],
                       retrying := map[entry.token := (entry.command, node)])
  {
    hide CanRetry;
  }

  lemma RetryOneIs(m: Manager, node: string, id: string, a: Attempt)
    requires m.retrying == map[] && m.relinking == {} && (node, id) in m.collected
    requires id in m.pending ==> m.pending[id].command.requestId == id
    ensures RetryOne(m, node, id, a) == Retried(m, node, id, a, m.(collected := m.collected - {(node, id)}))
  {
    if id in m.pending {
      var entry := m.pending[id];
      TakeIs(m, node, id);
      hide Step, CanRetry;
      var taken := Step(m, Take(node, id));
      if entry.attempts >= 1 || !CanRetry(entry.command.serviceId) {
        NothingOpen(taken, entry.token, id, a);
      } else {
        ResendIs(taken, entry.token, entry.command, node, a);
      }
    }
  }

  lemma RetryOneFrom(m: Manager, node: string, id: string, a: Attempt, rest: seq<string>)
    requires CallsInv(m) && m.retrying == map[] && m.relinking == {} && NoRepeats([id] + rest)
    ensures RetryOne(m.(collected := Pairs(node, [id] + rest)), node, id, a) ==
            Retried(m, node, id, a, m.(collected := Pairs(node, rest)))
    ensures CallsInv(Retried(m, node, id, a, m.(collected := Pairs(node, rest))))
  {
    var before := m.(collected := Pairs(node, [id] + rest));
    PairsTail(node, [id] + rest);
    assert ([id] + rest)[1..] == rest;
    RetryOneIs(before, node, id, a);
    hide Retried, RetryOne, TokensDistinct, CalledOnce;
    RetryOneKeepsCalls(before, node, id, a);
    assert Retried(before, node, id, a, m.(collected := Pairs(node, rest)))
        == Retried(m, node, id, a, m.(collected := Pairs(node, rest))) by {
      RetriedSame(before, m, node, id, a, m.(collected := Pairs(node, rest)));
    }
  }

  /** What a pass has collected plays no part in the outcome of one retry. */
  lemma RetriedSame(m: Manager, u: Manager, node: string, id: string, a: Attempt, done: Manager)
    requires m.pending == u.pending && m.sent == u.sent
    ensures Retried(m, node, id, a, done) == Retried(u, node, id, a, done)
  {
  }

  class MessageLinkManager {
    var pending: map<string, Entry>
    var stopping: bool
    // What the gateway can observe: accepted calls, callbacks run, commands handed to links.
    var accepted: seq<(Command, string)>
    var calls: multiset<nat>
    var sent: seq<Sent>

    /** Between calls nothing is half way through: no forward, retry or relink is open. */
    function State(): Manager
      reads this
    {
      Manager(pending, map[], {}, map[], {}, accepted, stopping, calls, sent)
    }

    /** Distinct tokens, and every callback run once or still waiting. */
    ghost predicate Valid()
      reads this
    {
      CallsInv(State())
    }

    constructor ()
      ensures Valid() && State() == IDLE
    {
      pending, stopping, accepted, calls, sent := map[], false, [], multiset{}, [];
    }

    /** Take an entry out of the table and run its callback. */
    method Complete(id: string) returns (found: bool)
      requires Valid()
      modifies `pending, `calls
      ensures Valid()
      ensures State() == Completed(old(State()), id) && found == (id in old(pending))
    {
      CompletedKeeps(State(), id);
      found := id in pending;
      if found {
        var token := pending[id].token;
        pending := pending - {id};
        calls := calls + multiset{token};
      }
    }

    method OnResult(id: string) returns (found: bool)
      requires Valid()
      modifies `pending, `calls
      ensures Valid()
      ensures State() == Step(old(State()), Result(id)) && found == (id in old(pending))
    {
      found := Complete(id);
    }

    method ExpirePending(id: string)
      requires Valid()
      modifies `pending, `calls
      ensures Valid()
      ensures State() == Step(old(State()), Expire(id))
    {
      var _ := Complete(id);
    }

    /** `link` is the selected link, `room` whether its queue takes the frame. */
    method Forward(c: Command, now: nat, link: Option<string>, room: bool) returns (ok: bool)
      requires Valid()
      modifies `pending, `accepted, `calls, `sent
      ensures Valid()
      ensures ok == Admissible(old(State()), c, now, link)
      ensures ok <==> c.requestId != "" && c.deadline > now && link.Some? && c.requestId !in old(pending)
      ensures State() == Step(Step(old(State()), Admit(c, now, link)), Dispatch(|old(accepted)|, now, room))
    {
      if c.requestId == "" || c.deadline <= now || link.None? || c.requestId in pending {
        return false;
      }
      ghost var before := State();
      AdmitKeeps(before, c, now, link);
      var token := |accepted|;
      pending := pending[c.requestId := Entry(token, c, link.value, 0)];
      accepted := accepted + [(c, link.value)];
      ghost var admitted := Step(before, Admit(c, now, link));
      assert State() == admitted.(forwarding := map[]);
      assert admitted.forwarding - {token} == map[];
      if room {
        sent := sent + [Sent(token, c, link.value, false, now)];
      } else {
        var _ := Complete(c.requestId);
      }
      return true;
    }

    /** The request ids waiting on a node, in the order the hash table yields them. */
    method WaitingOn(node: string) returns (ids: seq<string>)
      ensures NoRepeats(ids)
      ensures forall id :: id in ids <==> id in pending && pending[id].linkId == node
    {
      ids := [];
      var todo := pending.Keys;
      while todo != {}
        invariant todo <= pending.Keys && NoRepeats(ids)
        invariant forall id :: id in ids <==> id in pending && id !in todo && pending[id].linkId == node
        decreases |todo|
      {
        var id :| id in todo;
        if pending[id].linkId == node {
          ids := ids + [id];
        }
        todo := todo - {id};
      }
    }

    method RetryOneCommand(node: string, id: string, a: Attempt, ghost rest: seq<string>)
      requires Valid() && NoRepeats([id] + rest)
      modifies `pending, `sent
      ensures Valid()
      ensures State().(collected := Pairs(node, rest)) ==
              RetryOne(old(State()).(collected := Pairs(node, [id] + rest)), node, id, a)
    {
      hide RetryOne, TokensDistinct, CalledOnce, Pairs, NoRepeats, CanRetry;
      RetryOneFrom(State(), node, id, a, rest);
      if id !in pending || pending[id].attempts >= 1 || !CanRetry(pending[id].command.serviceId) {
        return;
      }
      var entry := pending[id];
      pending := pending[id := entry.(attempts := entry.attempts + 1)];
      if (entry.command.deadline > 0 && entry.command.deadline <= a.now) || a.target.None? || a.target.value == node {
        return;
      }
      if a.room {
        sent := sent + [Sent(entry.token, entry.command, a.target.value, true, a.now)];
        pending := pending[id := pending[id].(linkId := a.target.value)];
      }
    }

    /** Move what waits on a failed node to other links. */
    method RetryPending(node: string, answer: string -> Attempt) returns (ids: seq<string>)
      requires Valid()
      modifies `pending, `sent
      ensures Valid()
      ensures NoRepeats(ids) && forall id :: id in ids <==> id in old(pending) && old(pending)[id].linkId == node
      ensures State() == RetryAll(Step(old(State()), Collect(node)), node, ids, answer)
    {
      hide Step, RetryOne, RetryAll;
      ids := WaitingOn(node);
      CollectIs(State(), node, ids);
      ghost var start := Step(State(), Collect(node));
      var k := 0;
      assert ids[0..] == ids;
      while k < |ids|
        invariant k <= |ids| && Valid()
        invariant RetryAll(State().(collected := Pairs(node, ids[k..])), node, ids[k..], answer) ==
                  RetryAll(start, node, ids, answer)
      {
        assert ids[k..] == [ids[k]] + ids[k + 1..];
        RetryAllNext(State().(collected := Pairs(node, ids[k..])), node, ids[k], ids[k + 1..], answer);
        RetryOneCommand(node, ids[k], answer(ids[k]), ids[k + 1..]);
        k := k + 1;
      }
      assert ids[k..] == [];
      RetryAllDone(State(), node, answer);
    }

    method RunCallbacks(abandoned: map<string, Entry>)
      requires TokensDistinct(abandoned, |accepted|)
      modifies `calls
      ensures calls == old(calls) + multiset(Tokens(abandoned))
    {
      var todo := abandoned.Keys;
      ghost var called: set<nat> := {};
      CalledEnds(abandoned);
      hide CalledTokens, Tokens, TokensDistinct;
      while todo != {}
        invariant todo <= abandoned.Keys
        invariant called == CalledTokens(abandoned, todo) && calls == old(calls) + multiset(called)
        decreases |todo|
      {
        var id :| id in todo;
        calls := calls + multiset{abandoned[id].token};
        CalledNext(abandoned, todo, id, |accepted|);
        called := called + {abandoned[id].token};
        todo := todo - {id};
      }
    }

    /** Shutdown: every waiting callback runs. */
    method Stop()
      requires Valid()
      modifies `pending, `calls, `stopping
      ensures Valid() && State() == Step(old(State()), Event.Stop)
    {
      StepKeepsCalls(State(), Event.Stop);
      if stopping {
        return;
      }
      stopping := true;
      var abandoned := pending;
      pending := map[];
      RunCallbacks(abandoned);
    }
  }
}
