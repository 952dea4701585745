/**
 Commands a gateway has forwarded and not yet answered.  Each step below is one critical
 section of the manager, so results, timers, lost links, the retry pass and shutdown may
 interleave with the two halves of a Forward in any way.
 */
module CommandRouting {
  import opened Options

  datatype Command = Command(requestId: string, serviceId: int, conversationId: int, deadline: int)

  const PULL_FRIEND_LIST := 1001
  const PULL_FRIEND_APPLY_LIST := 1003
  const PULL_SESSION_MESSAGE_LIST := 1005
  const PULL_MESSAGE_LIST := 1007
  const TEXT_SEND := 1027
  const ACK := 1033
  const GROUP_TEXT_SEND := 1043

  /** Services that may be repeated on another Message node. */
  predicate CanRetry(serviceId: int) {
    serviceId in {TEXT_SEND, GROUP_TEXT_SEND, PULL_FRIEND_LIST, PULL_FRIEND_APPLY_LIST, PULL_SESSION_MESSAGE_LIST,
                  PULL_MESSAGE_LIST, ACK}
  }

  /** `token` is the position of the Forward call among the accepted ones: one token, one callback. */
  datatype Entry = Entry(token: nat, command: Command, linkId: string, attempts: nat)

  /** A command written to a link's queue. */
  datatype Sent = Sent(token: nat, command: Command, linkId: string, retry: bool, at: nat)

  datatype Manager = Manager(
    pending: map<string, Entry>,
    forwarding: map<nat, (Command, string)>,      // inserted, not yet handed to the link
    collected: set<(string, string)>,             // (failed node, request id) found by a retry pass
    retrying: map<nat, (Command, string)>,        // taken for retry away from a failed node
    relinking: set<(string, string)>,             // (request id, new link) to be noted in the entry
    accepted: seq<(Command, string)>,             // every Forward that stored an entry, with its first link
    stopping: bool,
    calls: multiset<nat>,                         // one element for each callback that has run
    sent: seq<Sent>)

  const IDLE := Manager(map[], map[], {}, map[], {}, [], false, multiset{}, [])

  datatype Event =
    | Admit(command: Command, now: nat, link: Option<string>)
    | Dispatch(token: nat, now: nat, room: bool)
    | Result(requestId: string)
    | Expire(requestId: string)
    | Collect(node: string)
    | Take(node: string, requestId: string)
    | Resend(token: nat, now: nat, target: Option<string>, room: bool)
    | Relink(requestId: string, linkId: string)
    | Stop

  /** First half of Forward: the checks it makes before the entry is stored. */
  predicate Admissible(m: Manager, c: Command, now: nat, link: Option<string>) {
    c.requestId != "" && c.deadline > now && link.Some? && c.requestId !in m.pending
  }

  /** Take an entry out of the table and run its callback. */
  function Completed(m: Manager, requestId: string): Manager {
    if requestId !in m.pending then m
    else m.(pending := m.pending - {requestId}, calls := m.calls + multiset{m.pending[requestId].token})
  }

  function Tokens(pending: map<string, Entry>): set<nat> {
    set id | id in pending :: pending[id].token
  }

  function Step(m: Manager, e: Event): Manager {
    match e
    case Admit(c, now, link) =>
      if !Admissible(m, c, now, link) then m
      else m.(pending := m.pending[c.requestId := Entry(|m.accepted|, c, link.value, 0)],
              forwarding := m.forwarding[|m.accepted| := (c, link.value)],
              accepted := m.accepted + [(c, link.value)])
    case Dispatch(token, now, room) =>
      if token !in m.forwarding then m
      else
        var (c, link) := m.forwarding[token];
        var m' := m.(forwarding := m.forwarding - {token});
        if room then m'.(sent := m.sent + [Sent(token, c, link, false, now)]) else Completed(m', c.requestId)
    case Result(id) => Completed(m, id)
    case Expire(id) => Completed(m, id)
    case Collect(node) =>
      m.(collected := m.collected + set id | id in m.pending && m.pending[id].linkId == node :: (node, id))
    case Take(node, id) =>
      if (node, id) !in m.collected then m
      else
        var m' := m.(collected := m.collected - {(node, id)});
        if id !in m.pending || m.pending[id].attempts >= 1 || !CanRetry(m.pending[id].command.serviceId) then m'
        else
          var entry := m.pending[id];
          m'.(pending := m.pending[id := entry.(attempts := entry.attempts + 1)],
              retrying := m.retrying[entry.token := (entry.command, node)])
    case Resend(token, now, target, room) =>
      if token !in m.retrying then m
      else
        var (c, node) := m.retrying[token];
        var m' := m.(retrying := m.retrying - {token});
        if (c.deadline > 0 && c.deadline <= now) || target.None? || target.value == node || !room then m'
        else m'.(sent := m.sent + [Sent(token, c, target.value, true, now)],
                 relinking := m.relinking + {(c.requestId, target.value)})
    case Relink(id, link) =>
      if (id, link) !in m.relinking then m
      else
        var m' := m.(relinking := m.relinking - {(id, link)});
        if id in m.pending then m'.(pending := m.pending[id := m.pending[id].(linkId := link)]) else m'
    case Stop =>
      if m.stopping then m
      else m.(pending := map[], calls := m.calls + multiset(Tokens(m.pending)), stopping := true)
  }

  function ManagerAt(es: seq<Event>, n: nat): Manager
    requires n <= |es|
  {
    if n == 0 then IDLE else Step(ManagerAt(es, n - 1), es[n - 1])
  }

  // ---------------------------------------------------------------- exactly one callback

  ghost predicate TokensDistinct(pending: map<string, Entry>, next: nat) {
    && (forall id :: id in pending ==> pending[id].token < next && pending[id].command.requestId == id)
    && (forall a, b :: a in pending && b in pending && a != b ==> pending[a].token != pending[b].token)
  }

  /** A callback has run never while its entry waits, and once after that. */
  ghost predicate CalledOnce(pending: map<string, Entry>, calls: multiset<nat>, next: nat) {
    && (forall id :: id in pending ==> calls[pending[id].token] == 0)
    && (forall t: nat :: t < next ==> t in Tokens(pending) || calls[t] == 1)
    && (forall t: nat :: next <= t ==> calls[t] == 0)
  }

  ghost predicate CallsInv(m: Manager) {
    TokensDistinct(m.pending, |m.accepted|) && CalledOnce(m.pending, m.calls, |m.accepted|)
  }

  lemma CompletedKeeps(m: Manager, id: string)
    requires CallsInv(m)
    ensures CallsInv(Completed(m, id))
  {
    if id in m.pending {
      var u := Completed(m, id);
      forall t: nat | t < |m.accepted|
        ensures t in Tokens(u.pending) || u.calls[t] == 1
      {
        if t in Tokens(m.pending) && t != m.pending[id].token {
          var k :| k in m.pending && m.pending[k].token == t;
          assert k in u.pending && u.pending[k].token == t;
        }
      }
    }
  }

  /** Rewriting an entry without touching its token or command changes no callback. */
  lemma RewriteKeeps(pending: map<string, Entry>, calls: multiset<nat>, next: nat, id: string, e: Entry)
    requires TokensDistinct(pending, next) && CalledOnce(pending, calls, next)
    requires id in pending && e.token == pending[id].token && e.command == pending[id].command
    ensures TokensDistinct(pending[id := e], next) && CalledOnce(pending[id := e], calls, next)
  {
    var later := pending[id := e];
    forall t | t in Tokens(pending)
      ensures t in Tokens(later)
    {
      var k :| k in pending && pending[k].token == t;
      assert k in later && later[k].token == t;
    }
  }

  /** A new entry with the next token waits, and the others wait on. */
  lemma NewEntryKeeps(pending: map<string, Entry>, calls: multiset<nat>, next: nat, id: string, e: Entry)
    requires TokensDistinct(pending, next) && CalledOnce(pending, calls, next)
    requires id !in pending && e.token == next && e.command.requestId == id
    ensures TokensDistinct(pending[id := e], next + 1) && CalledOnce(pending[id := e], calls, next + 1)
  {
    var later := pending[id := e];
    forall t: nat | t < next + 1
      ensures t in Tokens(later) || calls[t] == 1
    {
      if t == next {
        assert later[id].token == t;
      } else if t in Tokens(pending) {
        var k :| k in pending && pending[k].token == t;
        assert k in later && later[k].token == t;
      }
    }
  }

  lemma AdmitKeeps(m: Manager, c: Command, now: nat, link: Option<string>)
    requires CallsInv(m)
    ensures CallsInv(Step(m, Admit(c, now, link)))
  {
    hide TokensDistinct, CalledOnce;
    if Admissible(m, c, now, link) {
      NewEntryKeeps(m.pending, m.calls, |m.accepted|, c.requestId, Entry(|m.accepted|, c, link.value, 0));
    }
  }

  lemma StopKeeps(m: Manager)
    requires CallsInv(m)
    ensures CallsInv(Step(m, Stop))
  {
    forall t | t in Tokens(m.pending)
      ensures m.calls[t] == 0 && t < |m.accepted|
    {
      var k :| k in m.pending && m.pending[k].token == t;
    }
  }

  lemma StepKeepsCalls(m: Manager, e: Event)
    requires CallsInv(m)
    ensures CallsInv(Step(m, e))
  {
    hide TokensDistinct, CalledOnce, Completed;
    match e
    case Admit(c, now, link) => AdmitKeeps(m, c, now, link);
    case Dispatch(token, now, room) =>
      if token in m.forwarding {
        CompletedKeeps(m.(forwarding := m.forwarding - {token}), m.forwarding[token].0.requestId);
      }
    case Result(id) => CompletedKeeps(m, id);
    case Expire(id) => CompletedKeeps(m, id);
    case Take(node, id) =>
      if id in m.pending {
        RewriteKeeps(m.pending, m.calls, |m.accepted|, id, m.pending[id].(attempts := m.pending[id].attempts + 1));
      }
    case Relink(id, link) =>
      if id in m.pending {
        RewriteKeeps(m.pending, m.calls, |m.accepted|, id, m.pending[id].(linkId := link));
      }
    case Stop => StopKeeps(m);
    case _ =>
  }

  /**
   For every Forward that was accepted: while its entry waits its callback has not run, and once
   the entry is gone it has run exactly once, whatever mixture of results, duplicates, timers,
   full queues, lost links and shutdown the run holds.
   */
  lemma {:induction false} ExactlyOneCallback(es: seq<Event>, n: nat)
    requires n <= |es|
    ensures CallsInv(ManagerAt(es, n))
    ensures var m := ManagerAt(es, n);
            forall t: nat :: t < |m.accepted| ==> m.calls[t] == if t in Tokens(m.pending) then 0 else 1
  {
    if n > 0 {
      ExactlyOneCallback(es, n - 1);
      hide Step;
      StepKeepsCalls(ManagerAt(es, n - 1), es[n - 1]);
    }
  }

  /** An answer or a timer ends the wait: the entry is gone and its caller has been called back. */
  lemma AnswerEndsTheWait(m: Manager, id: string)
    requires CallsInv(m) && id in m.pending
    ensures forall e :: e in {Result(id), Expire(id)} ==>
              var u := Step(m, e);
              id !in u.pending && u.calls[m.pending[id].token] == 1 && u.sent == m.sent
  {
    hide Tokens;
  }

  /** Shutting down leaves no one waiting: every accepted command has been called back once, with nothing written. */
  lemma StopEndsEveryWait(es: seq<Event>, n: nat)
    requires n <= |es| && !ManagerAt(es, n).stopping
    ensures var m, u := ManagerAt(es, n), Step(ManagerAt(es, n), Stop);
            && u.pending == map[] && u.sent == m.sent && u.accepted == m.accepted
            && (forall t: nat :: t < |u.accepted| ==> u.calls[t] == 1)
  {
    ExactlyOneCallback(es, n);
    var m := ManagerAt(es, n);
    StopKeeps(m);
    hide ManagerAt;
  }

  /** The second half of Forward writes the command to the selected link, or with no room there calls back at once. */
  lemma ForwardWritesOrCallsBack(m: Manager, token: nat, now: nat, room: bool)
    requires CallsInv(m) && token in m.forwarding
    ensures var u := Step(m, Dispatch(token, now, room));
            var (c, link) := m.forwarding[token];
            && token !in u.forwarding
            && (room ==> u.sent == m.sent + [Sent(token, c, link, false, now)] && u.pending == m.pending && u.calls == m.calls)
            && (!room ==> u.sent == m.sent && c.requestId !in u.pending)
            && (!room && c.requestId in m.pending ==> u.calls[m.pending[c.requestId].token] == 1)
  {
    hide Tokens;
  }

  // ---------------------------------------------------------------- at most one retry

  /** The tokens whose command has been written to a link, the first time or as a retry. */
  ghost function SentTokens(sent: seq<Sent>, retry: bool): set<nat> {
    set i | 0 <= i < |sent| && sent[i].retry == retry :: sent[i].token
  }

  lemma SentTokensAppend(sent: seq<Sent>, s: Sent, retry: bool)
    ensures SentTokens(sent + [s], retry) == SentTokens(sent, retry) + if s.retry == retry then {s.token} else {}
  {
    var later := sent + [s];
    forall t | t in SentTokens(sent, retry)
      ensures t in SentTokens(later, retry)
    {
      var i :| 0 <= i < |sent| && sent[i].retry == retry && sent[i].token == t;
      assert later[i] == sent[i];
    }
    assert later[|sent|] == s;
  }

  /** A retry is for a service that may be repeated, and is written before the command's deadline. */
  predicate SoundRetry(s: Sent) {
    s.retry ==> CanRetry(s.command.serviceId) && s.at < s.command.deadline
  }

  /** Each token is written at most once as a first send and at most once as a retry. */
  ghost predicate SentOnce(sent: seq<Sent>, next: nat) {
    && (forall i :: 0 <= i < |sent| ==> sent[i].token < next && SoundRetry(sent[i]))
    && (forall i, j :: 0 <= i < j < |sent| && sent[i].token == sent[j].token ==> sent[i].retry != sent[j].retry)
  }

  ghost predicate PendingInv(pending: map<string, Entry>, used: set<nat>, next: nat) {
    forall id :: id in pending ==>
      && pending[id].token < next && pending[id].command.deadline > 0
      && (pending[id].token in used ==> pending[id].attempts >= 1)
  }

  ghost predicate ForwardingInv(forwarding: map<nat, (Command, string)>, first: set<nat>, next: nat) {
    forall t :: t in forwarding ==> t < next && t !in first
  }

  ghost predicate RetryingInv(retrying: map<nat, (Command, string)>, retried: set<nat>, next: nat) {
    forall t :: t in retrying ==>
      t < next && t !in retried && CanRetry(retrying[t].0.serviceId) && retrying[t].0.deadline > 0
  }

  ghost predicate SendsInv(m: Manager) {
    && PendingInv(m.pending, m.retrying.Keys + SentTokens(m.sent, true), |m.accepted|)
    && ForwardingInv(m.forwarding, SentTokens(m.sent, false), |m.accepted|)
    && RetryingInv(m.retrying, SentTokens(m.sent, true), |m.accepted|)
    && SentOnce(m.sent, |m.accepted|)
  }

  lemma SentBelow(sent: seq<Sent>, next: nat, retry: bool)
    requires SentOnce(sent, next)
    ensures forall t :: t in SentTokens(sent, retry) ==> t < next
  {
  }

  lemma SentAppend(sent: seq<Sent>, s: Sent, next: nat)
    requires SentOnce(sent, next) && s.token < next && s.token !in SentTokens(sent, s.retry) && SoundRetry(s)
    ensures SentOnce(sent + [s], next)
  {
    forall i | 0 <= i < |sent| && sent[i].token == s.token
      ensures sent[i].retry != s.retry
    {
      assert sent[i].token in SentTokens(sent, sent[i].retry);
    }
  }

  lemma AdmitKeepsSends(m: Manager, c: Command, now: nat, link: Option<string>)
    requires SendsInv(m)
    ensures SendsInv(Step(m, Admit(c, now, link)))
  {
    SentBelow(m.sent, |m.accepted|, false);
    SentBelow(m.sent, |m.accepted|, true);
    hide SentTokens;
  }

  lemma DispatchKeepsSends(m: Manager, token: nat, now: nat, room: bool)
    requires SendsInv(m)
    ensures SendsInv(Step(m, Dispatch(token, now, room)))
  {
    if token in m.forwarding {
      var (c, link) := m.forwarding[token];
      var s := Sent(token, c, link, false, now);
      SentTokensAppend(m.sent, s, false);
      SentTokensAppend(m.sent, s, true);
      SentAppend(m.sent, s, |m.accepted|);
      assert m.retrying.Keys + (SentTokens(m.sent, true) + {}) == m.retrying.Keys + SentTokens(m.sent, true);
      hide SentTokens, SentOnce, RetryingInv;
    }
  }

  /** What a take changes: one mark and, for a command it may retry, one attempt and the retry it starts. */
  lemma TakeShape(m: Manager, node: string, id: string)
    ensures var u := Step(m, Take(node, id));
            && u.accepted == m.accepted && u.sent == m.sent && u.relinking == m.relinking
            && u.forwarding == m.forwarding && u.collected <= m.collected
            && (|| (u.retrying == m.retrying && u.pending == m.pending)
                || (&& (node, id) in m.collected && id in m.pending && m.pending[id].attempts == 0
                    && CanRetry(m.pending[id].command.serviceId)
                    && u.pending == m.pending[id := m.pending[id].(attempts := 1)]
                    && u.retrying == m.retrying[m.pending[id].token := (m.pending[id].command, node)]))
  {
    hide CanRetry;
  }

  lemma ChargedPending(pending: map<string, Entry>, used: set<nat>, next: nat, id: string)
    requires TokensDistinct(pending, next) && PendingInv(pending, used, next) && id in pending
    ensures PendingInv(pending[id := pending[id].(attempts := 1)], used + {pending[id].token}, next)
  {
  }

  lemma TakeKeepsSends(m: Manager, node: string, id: string)
    requires CallsInv(m) && SendsInv(m)
    ensures SendsInv(Step(m, Take(node, id)))
  {
    hide Step, SentTokens, SentOnce, CalledOnce, CanRetry, ForwardingInv, TokensDistinct;
    TakeShape(m, node, id);
    var u := Step(m, Take(node, id));
    if u.retrying != m.retrying || u.pending != m.pending {
      var retried, token := SentTokens(m.sent, true), m.pending[id].token;
      ChargedPending(m.pending, m.retrying.Keys + retried, |m.accepted|, id);
      assert u.retrying.Keys + retried == (m.retrying.Keys + retried) + {token};
    }
  }

  /** What a resend changes: the retry is over, and if it was written there is one more write. */
  lemma ResendShape(m: Manager, token: nat, now: nat, target: Option<string>, room: bool)
    requires token in m.retrying
    ensures var u := Step(m, Resend(token, now, target, room));
            var (c, node) := m.retrying[token];
            && u.accepted == m.accepted && u.pending == m.pending && u.forwarding == m.forwarding
            && u.collected == m.collected && u.retrying == m.retrying - {token}
            && (|| (u.sent == m.sent && u.relinking == m.relinking)
                || (&& target.Some? && target.value != node && (c.deadline > 0 ==> now < c.deadline)
                    && u.sent == m.sent + [Sent(token, c, target.value, true, now)]
                    && u.relinking == m.relinking + {(c.requestId, target.value)}))
  {
  }

  lemma FewerUsed(pending: map<string, Entry>, used: set<nat>, fewer: set<nat>, next: nat)
    requires PendingInv(pending, used, next) && fewer <= used
    ensures PendingInv(pending, fewer, next)
  {
  }

  lemma ResendKeepsSends(m: Manager, token: nat, now: nat, target: Option<string>, room: bool)
    requires SendsInv(m)
    ensures SendsInv(Step(m, Resend(token, now, target, room)))
  {
    hide CanRetry, SentTokens, SentOnce, PendingInv, ForwardingInv;
    if token in m.retrying {
      ResendShape(m, token, now, target, room);
      hide Step;
      var u := Step(m, Resend(token, now, target, room));
      var (c, node) := m.retrying[token];
      if u.sent != m.sent {
        var s := Sent(token, c, target.value, true, now);
        SentTokensAppend(m.sent, s, false);
        SentTokensAppend(m.sent, s, true);
        SentAppend(m.sent, s, |m.accepted|);
        assert SentTokens(m.sent, false) + {} == SentTokens(m.sent, false);
      }
      FewerUsed(m.pending, m.retrying.Keys + SentTokens(m.sent, true), u.retrying.Keys + SentTokens(u.sent, true), |m.accepted|);
    }
  }

  lemma StepKeepsSends(m: Manager, e: Event)
    requires CallsInv(m) && SendsInv(m)
    ensures SendsInv(Step(m, e))
  {
    hide SentTokens, SentOnce, TokensDistinct, CalledOnce, ForwardingInv, RetryingInv, CanRetry, Tokens;
    match e
    case Admit(c, now, link) => AdmitKeepsSends(m, c, now, link);
    case Dispatch(token, now, room) => DispatchKeepsSends(m, token, now, room);
    case Take(node, id) => TakeKeepsSends(m, node, id);
    case Resend(token, now, target, room) => ResendKeepsSends(m, token, now, target, room);
    case _ =>
  }

  /**
   A forwarded command is written to links at most twice: once by Forward and once as a retry,
   the retry only for a service that may be repeated and only before the command's deadline.
   */
  lemma {:induction false} AtMostOneRetry(es: seq<Event>, n: nat)
    requires n <= |es|
    ensures SendsInv(ManagerAt(es, n))
    ensures SentOnce(ManagerAt(es, n).sent, |ManagerAt(es, n).accepted|)
  {
    if n > 0 {
      AtMostOneRetry(es, n - 1);
      ExactlyOneCallback(es, n - 1);
      hide Step, CallsInv, PendingInv, ForwardingInv, RetryingInv, SentOnce;
      StepKeepsSends(ManagerAt(es, n - 1), es[n - 1]);
    }
  }
}
