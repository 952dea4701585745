/**
 Where a retry goes.  The retry pass looks entries up by request id, and a client may choose its
 own request ids, so "on a different node" depends on ids not being used twice.
 */
module RetryTargets {
  import opened Options
  import opened CommandRouting

  // ---------------------------------------------------------------- what is written is what was forwarded

  ghost predicate PendingHomes(pending: map<string, Entry>, accepted: seq<(Command, string)>) {
    forall id :: id in pending ==>
      && pending[id].token < |accepted| && pending[id].command == accepted[pending[id].token].0
      && pending[id].command.requestId == id
  }

  ghost predicate ForwardingHomes(forwarding: map<nat, (Command, string)>, accepted: seq<(Command, string)>) {
    forall t :: t in forwarding ==> t < |accepted| && forwarding[t] == accepted[t]
  }

  ghost predicate RetryingHomes(retrying: map<nat, (Command, string)>, accepted: seq<(Command, string)>) {
    forall t :: t in retrying ==> t < |accepted| && retrying[t].0 == accepted[t].0
  }

  /** A write carries the forwarded command; the first one goes to the link Forward selected. */
  ghost predicate SentHomes(sent: seq<Sent>, accepted: seq<(Command, string)>) {
    forall i :: 0 <= i < |sent| ==>
      && sent[i].token < |accepted| && sent[i].command == accepted[sent[i].token].0
      && (!sent[i].retry ==> sent[i].linkId == accepted[sent[i].token].1)
  }

  ghost predicate HomesInv(m: Manager) {
    && PendingHomes(m.pending, m.accepted)
    && ForwardingHomes(m.forwarding, m.accepted)
    && RetryingHomes(m.retrying, m.accepted)
    && SentHomes(m.sent, m.accepted)
  }

  lemma AdmitKeepsHomes(m: Manager, c: Command, now: nat, link: Option<string>)
    requires HomesInv(m)
    ensures HomesInv(Step(m, Admit(c, now, link)))
  {
  }

  lemma DispatchKeepsHomes(m: Manager, token: nat, now: nat, room: bool)
    requires HomesInv(m)
    ensures HomesInv(Step(m, Dispatch(token, now, room)))
  {
    hide RetryingHomes;
  }

  lemma TakeKeepsHomes(m: Manager, node: string, id: string)
    requires HomesInv(m)
    ensures HomesInv(Step(m, Take(node, id)))
  {
    hide Step, ForwardingHomes, SentHomes, CanRetry;
    TakeShape(m, node, id);
  }

  lemma ResendKeepsHomes(m: Manager, token: nat, now: nat, target: Option<string>, room: bool)
    requires HomesInv(m)
    ensures HomesInv(Step(m, Resend(token, now, target, room)))
  {
    hide ForwardingHomes, PendingHomes;
  }

  lemma StepKeepsHomes(m: Manager, e: Event)
    requires HomesInv(m)
    ensures HomesInv(Step(m, e))
  {
    hide ForwardingHomes, SentHomes, RetryingHomes;
    match e
    case Admit(c, now, link) => AdmitKeepsHomes(m, c, now, link);
    case Dispatch(token, now, room) => DispatchKeepsHomes(m, token, now, room);
    case Take(node, id) => TakeKeepsHomes(m, node, id);
    case Resend(token, now, target, room) => ResendKeepsHomes(m, token, now, target, room);
    case _ =>
  }

  lemma {:induction false} SendsCarryTheForwardedCommand(es: seq<Event>, n: nat)
    requires n <= |es|
    ensures HomesInv(ManagerAt(es, n))
    ensures SentHomes(ManagerAt(es, n).sent, ManagerAt(es, n).accepted)
  {
    hide Step, PendingHomes, ForwardingHomes, RetryingHomes, SentHomes;
    if n == 0 {
      IdleHomes();
    } else {
      SendsCarryTheForwardedCommand(es, n - 1);
      StepKeepsHomes(ManagerAt(es, n - 1), es[n - 1]);
    }
  }

  lemma IdleHomes()
    ensures HomesInv(IDLE)
  {
  }

  // ---------------------------------------------------------------- a request id used once

  type Accepted = seq<(Command, string)>

  ghost predicate Uses(accepted: Accepted, i: nat, id: string) {
    i < |accepted| && accepted[i].0.requestId == id
  }

  /** The id was accepted at most once. */
  ghost predicate Sole(accepted: Accepted, id: string) {
    forall i, j :: Uses(accepted, i, id) && Uses(accepted, j, id) ==> i == j
  }

  ghost predicate Known(accepted: Accepted, id: string) {
    exists i :: Uses(accepted, i, id)
  }

  /** The entry waits for its first answer, and this is the link Forward selected. */
  predicate UntriedFrom(pending: map<string, Entry>, accepted: Accepted, id: string, link: string) {
    id in pending && pending[id].attempts == 0 && pending[id].token < |accepted| ==> link == accepted[pending[id].token].1
  }

  ghost predicate CollectedAtHome(collected: set<(string, string)>, pending: map<string, Entry>, accepted: Accepted, id: string) {
    forall node :: (node, id) in collected ==> Known(accepted, id) && UntriedFrom(pending, accepted, id, node)
  }

  ghost predicate RelinkingTried(relinking: set<(string, string)>, pending: map<string, Entry>, accepted: Accepted, id: string) {
    forall link :: (id, link) in relinking ==> Known(accepted, id) && (id in pending ==> pending[id].attempts >= 1)
  }

  ghost predicate RetryingAway(retrying: map<nat, (Command, string)>, accepted: Accepted, id: string) {
    forall t :: t in retrying && Uses(accepted, t, id) ==> retrying[t].1 == accepted[t].1
  }

  /** A retry for this request id was written to a link other than the one that had the first write. */
  ghost predicate RetriesElsewhere(sent: seq<Sent>, accepted: Accepted, id: string) {
    forall i :: 0 <= i < |sent| && sent[i].retry && Uses(accepted, sent[i].token, id) ==>
      sent[i].linkId != accepted[sent[i].token].1
  }

  ghost predicate AwayInv(m: Manager, id: string) {
    && (id in m.pending ==> UntriedFrom(m.pending, m.accepted, id, m.pending[id].linkId))
    && CollectedAtHome(m.collected, m.pending, m.accepted, id)
    && RelinkingTried(m.relinking, m.pending, m.accepted, id)
    && RetryingAway(m.retrying, m.accepted, id)
    && RetriesElsewhere(m.sent, m.accepted, id)
  }

  /** What a new Forward adds to the accepted ones. */
  lemma UsesAppend(accepted: Accepted, more: (Command, string), id: string)
    requires Sole(accepted + [more], id)
    ensures Sole(accepted, id)
    ensures Known(accepted, id) ==> Known(accepted + [more], id)
    ensures more.0.requestId == id ==> !Known(accepted, id)
  {
    var later := accepted + [more];
    assert forall i :: 0 <= i < |accepted| ==> later[i] == accepted[i];
    assert forall i :: Uses(accepted, i, id) ==> Uses(later, i, id);
    if more.0.requestId == id {
      assert Uses(later, |accepted|, id);
    }
  }

  lemma AdmitKeepsTables(m: Manager, c: Command, now: nat, link: Option<string>, id: string)
    requires HomesInv(m) && RetryingAway(m.retrying, m.accepted, id) && RetriesElsewhere(m.sent, m.accepted, id)
    ensures var u := Step(m, Admit(c, now, link));
            RetryingAway(u.retrying, u.accepted, id) && RetriesElsewhere(u.sent, u.accepted, id)
  {
    hide PendingHomes, ForwardingHomes;
  }

  lemma AdmitKeepsAway(m: Manager, c: Command, now: nat, link: Option<string>, id: string)
    requires AwayInv(m, id) && HomesInv(m) && Sole(Step(m, Admit(c, now, link)).accepted, id)
    ensures AwayInv(Step(m, Admit(c, now, link)), id)
  {
    hide Sole, Known, RetryingAway, RetriesElsewhere, ForwardingHomes, RetryingHomes, SentHomes;
    AdmitKeepsTables(m, c, now, link, id);
    if Admissible(m, c, now, link) {
      UsesAppend(m.accepted, (c, link.value), id);
    }
  }

  lemma RetryingOther(retrying: map<nat, (Command, string)>, accepted: Accepted, q: string, token: nat, r: (Command, string))
    requires RetryingAway(retrying, accepted, q) && !Uses(accepted, token, q)
    ensures RetryingAway(retrying[token := r], accepted, q)
  {
  }

  lemma FewerCollected(collected: set<(string, string)>, fewer: set<(string, string)>, pending: map<string, Entry>,
                       later: map<string, Entry>, accepted: Accepted, q: string)
    requires CollectedAtHome(collected, pending, accepted, q) && fewer <= collected
    requires (q in later <==> q in pending) && (q in pending ==> later[q] == pending[q])
    ensures CollectedAtHome(fewer, later, accepted, q)
  {
    hide Known;
  }

  /** A take of another id touches nothing that concerns `q`. */
  lemma TakeOtherKeepsAway(m: Manager, node: string, id: string, q: string)
    requires AwayInv(m, q) && HomesInv(m) && id != q
    ensures AwayInv(Step(m, Take(node, id)), q)
  {
    hide Step, HomesInv, Known, RetriesElsewhere, RetryingAway, CollectedAtHome;
    var u := Step(m, Take(node, id));
    TakeShape(m, node, id);
    FewerCollected(m.collected, u.collected, m.pending, u.pending, m.accepted, q);
    if id in m.pending {
      OwnId(m, id);
      RetryingOther(m.retrying, m.accepted, q, m.pending[id].token, (m.pending[id].command, node));
    }
  }

  lemma OwnId(m: Manager, id: string)
    requires HomesInv(m) && id in m.pending
    ensures m.pending[id].token < |m.accepted| && m.accepted[m.pending[id].token].0.requestId == id
  {
    hide ForwardingHomes, RetryingHomes, SentHomes;
  }

  lemma TakeOwnKeepsAway(m: Manager, node: string, q: string)
    requires AwayInv(m, q) && HomesInv(m) && Sole(m.accepted, q)
    ensures AwayInv(Step(m, Take(node, q)), q)
  {
    hide Step, Known, RetriesElsewhere, HomesInv, CanRetry;
    TakeShape(m, node, q);
    if q in m.pending {
      OwnId(m, q);
      assert Uses(m.accepted, m.pending[q].token, q);
    }
  }

  lemma TakeKeepsAway(m: Manager, node: string, id: string, q: string)
    requires AwayInv(m, q) && HomesInv(m) && Sole(m.accepted, q)
    ensures AwayInv(Step(m, Take(node, id)), q)
  {
    hide AwayInv, HomesInv, Sole, Step;
    if id == q {
      TakeOwnKeepsAway(m, node, q);
    } else {
      TakeOtherKeepsAway(m, node, id, q);
    }
  }

  lemma CollectKeepsAway(m: Manager, node: string, q: string)
    requires AwayInv(m, q) && HomesInv(m)
    ensures AwayInv(Step(m, Collect(node)), q)
  {
    if q in m.pending {
      assert Uses(m.accepted, m.pending[q].token, q);
    }
    hide Known, RetriesElsewhere, RetryingAway, RelinkingTried, HomesInv;
  }

  /** A retry in progress for `q` belongs to the entry that waits under `q`, which has been charged. */
  lemma RetryCharged(m: Manager, token: nat, q: string)
    requires HomesInv(m) && SendsInv(m) && Sole(m.accepted, q) && token in m.retrying && m.retrying[token].0.requestId == q
    ensures Uses(m.accepted, token, q)
    ensures q in m.pending ==> m.pending[q].attempts >= 1
  {
    hide SentTokens, SentOnce, ForwardingInv, RetryingInv, ForwardingHomes, SentHomes;
    if q in m.pending {
      assert Uses(m.accepted, m.pending[q].token, q);
      assert Uses(m.accepted, token, q);
    }
  }

  lemma ResendKeepsAway(m: Manager, token: nat, now: nat, target: Option<string>, room: bool, q: string)
    requires AwayInv(m, q) && HomesInv(m) && SendsInv(m) && Sole(m.accepted, q)
    ensures AwayInv(Step(m, Resend(token, now, target, room)), q)
  {
    hide CollectedAtHome, SendsInv, Sole, UntriedFrom, PendingHomes, ForwardingHomes, SentHomes;
    if token in m.retrying {
      ResendShape(m, token, now, target, room);
      hide Step;
      if m.retrying[token].0.requestId == q {
        RetryCharged(m, token, q);
        assert Known(m.accepted, q);
      }
      hide Known;
    }
  }

  /** Fewer entries and no new work: nothing to show. */
  lemma ShrinkKeepsAway(m: Manager, u: Manager, q: string)
    requires AwayInv(m, q)
    requires u.accepted == m.accepted && u.collected == m.collected && u.relinking == m.relinking
    requires u.retrying == m.retrying && (q in u.pending ==> q in m.pending && u.pending[q] == m.pending[q])
    requires RetriesElsewhere(u.sent, u.accepted, q)
    ensures AwayInv(u, q)
  {
    hide Known, RetriesElsewhere, RetryingAway;
  }

  lemma RelinkKeepsAway(m: Manager, id: string, link: string, q: string)
    requires AwayInv(m, q)
    ensures AwayInv(Step(m, Relink(id, link)), q)
  {
    hide Known, RetriesElsewhere, RetryingAway;
  }

  /** A first write is no retry. */
  lemma DispatchKeepsRetries(m: Manager, token: nat, now: nat, room: bool, q: string)
    requires RetriesElsewhere(m.sent, m.accepted, q)
    ensures var u := Step(m, Dispatch(token, now, room)); RetriesElsewhere(u.sent, u.accepted, q)
  {
  }

  lemma CompletedShape(m: Manager, id: string)
    ensures var u := Completed(m, id);
            u == m.(pending := u.pending, calls := u.calls)
            && forall k :: k in u.pending ==> k in m.pending && u.pending[k] == m.pending[k]
  {
  }

  /** Results, timers, the end of a Forward and shutdown only take entries out. */
  lemma CompletionShape(m: Manager, e: Event)
    ensures var u := Step(m, e);
            e.Dispatch? || e.Result? || e.Expire? || e.Stop? ==>
              && u.accepted == m.accepted && u.collected == m.collected && u.relinking == m.relinking
              && u.retrying == m.retrying && (forall k :: k in u.pending ==> k in m.pending && u.pending[k] == m.pending[k])
              && (!e.Dispatch? ==> u.sent == m.sent)
  {
    hide Tokens, CanRetry, Completed;
    match e
    case Dispatch(token, now, room) =>
      if token in m.forwarding {
        CompletedShape(m.(forwarding := m.forwarding - {token}), m.forwarding[token].0.requestId);
      }
    case Result(id) => CompletedShape(m, id);
    case Expire(id) => CompletedShape(m, id);
    case _ =>
  }

  lemma AwayRetries(m: Manager, q: string)
    requires AwayInv(m, q)
    ensures RetriesElsewhere(m.sent, m.accepted, q)
  {
  }

  lemma StepKeepsAway(m: Manager, e: Event, q: string)
    requires AwayInv(m, q) && HomesInv(m) && SendsInv(m) && Sole(Step(m, e).accepted, q)
    ensures AwayInv(Step(m, e), q)
  {
    hide Step, Sole, HomesInv, SendsInv, AwayInv, RetriesElsewhere;
    CompletionShape(m, e);
    StepSole(m, e, q);
    match e
    case Admit(c, now, link) => AdmitKeepsAway(m, c, now, link, q);
    case Take(node, id) => TakeKeepsAway(m, node, id, q);
    case Collect(node) => CollectKeepsAway(m, node, q);
    case Resend(token, now, target, room) => ResendKeepsAway(m, token, now, target, room, q);
    case Relink(id, link) => RelinkKeepsAway(m, id, link, q);
    case Dispatch(token, now, room) =>
      AwayRetries(m, q);
      DispatchKeepsRetries(m, token, now, room, q);
      ShrinkKeepsAway(m, Step(m, e), q);
    case _ =>
      AwayRetries(m, q);
      ShrinkKeepsAway(m, Step(m, e), q);
  }

  lemma StepSole(m: Manager, e: Event, q: string)
    requires Sole(Step(m, e).accepted, q)
    ensures Sole(m.accepted, q)
  {
    hide Tokens, CanRetry, Completed;
    if e.Admit? && Admissible(m, e.command, e.now, e.link) {
      UsesAppend(m.accepted, (e.command, e.link.value), q);
    } else {
      hide Sole;
      AcceptedUntouched(m, e);
    }
  }

  lemma AcceptedUntouched(m: Manager, e: Event)
    requires !(e.Admit? && Admissible(m, e.command, e.now, e.link))
    ensures Step(m, e).accepted == m.accepted
  {
    hide Tokens, CanRetry;
  }

  lemma IdleAway(q: string)
    ensures AwayInv(IDLE, q)
  {
  }

  lemma {:induction false} AwayAlways(es: seq<Event>, n: nat, q: string)
    requires n <= |es| && Sole(ManagerAt(es, n).accepted, q)
    ensures AwayInv(ManagerAt(es, n), q)
  {
    hide Step, HomesInv, SendsInv, Sole, AwayInv;
    if n == 0 {
      IdleAway(q);
    } else {
      var m, e := ManagerAt(es, n - 1), es[n - 1];
      assert ManagerAt(es, n) == Step(m, e);
      StepSole(m, e, q);
      AwayAlways(es, n - 1, q);
      SendsCarryTheForwardedCommand(es, n - 1);
      AtMostOneRetry(es, n - 1);
      hide ManagerAt;
      StepKeepsAway(m, e, q);
    }
  }

  /**
   A command whose request id was accepted once in the run is never written twice to one link: its
   retry goes to a node other than the one that had the first write.  So a retry returns to the
   first link only for a request id that was used again.
   */
  lemma RetryGoesElsewhere(es: seq<Event>, n: nat, i: nat)
    requires n <= |es| && i < |ManagerAt(es, n).sent| && ManagerAt(es, n).sent[i].retry
    requires Sole(ManagerAt(es, n).accepted, ManagerAt(es, n).sent[i].command.requestId)
    ensures var m := ManagerAt(es, n);
            var s := m.sent[i];
            s.token < |m.accepted| && s.linkId != m.accepted[s.token].1
  {
    hide Step, ManagerAt, Sole, PendingHomes, ForwardingHomes, RetryingHomes;
    var m := ManagerAt(es, n);
    SendsCarryTheForwardedCommand(es, n);
    AwayAlways(es, n, m.sent[i].command.requestId);
    assert Uses(m.accepted, m.sent[i].token, m.sent[i].command.requestId);
  }

  // ---------------------------------------------------------------- a request id used twice

  const FIRST := Command("r", TEXT_SEND, 7, 100)

  /** The id is answered and used again while a retry pass still holds it. */
  const REUSED: seq<Event> := [
    Admit(FIRST, 0, Some("A")),
    Collect("A"),
    Result("r"),
    Admit(FIRST, 1, Some("B")),
    Dispatch(1, 2, true),
    Take("A", "r"),
    Resend(1, 3, Some("B"), true)
  ]

  lemma ReusedPrefix()
    ensures var m := ManagerAt(REUSED, 4);
            && m.pending == map["r" := Entry(1, FIRST, "B", 0)] && ("A", "r") in m.collected
            && 1 in m.forwarding && m.forwarding[1] == (FIRST, "B") && m.sent == []
  {
    hide CanRetry;
    assert ManagerAt(REUSED, 1) == Step(IDLE, REUSED[0]) by { assert ManagerAt(REUSED, 0) == IDLE; }
    var m1 := ManagerAt(REUSED, 1);
    assert ManagerAt(REUSED, 2) == Step(m1, REUSED[1]);
    assert ("A", "r") in ManagerAt(REUSED, 2).collected by {
      assert "r" in m1.pending && m1.pending["r"].linkId == "A";
    }
    assert ManagerAt(REUSED, 3) == Step(ManagerAt(REUSED, 2), REUSED[2]);
    assert ManagerAt(REUSED, 4) == Step(ManagerAt(REUSED, 3), REUSED[3]);
  }

  /** Without distinct ids a command can be written twice to the same link. */
  lemma ReusedIdIsRetriedAtHome()
    ensures var m := ManagerAt(REUSED, 7);
            |m.sent| == 2 && m.sent[0].token == m.sent[1].token && m.sent[0].linkId == m.sent[1].linkId
  {
    ReusedPrefix();
    assert ManagerAt(REUSED, 5) == Step(ManagerAt(REUSED, 4), REUSED[4]);
    assert ManagerAt(REUSED, 6) == Step(ManagerAt(REUSED, 5), REUSED[5]);
    assert ManagerAt(REUSED, 7) == Step(ManagerAt(REUSED, 6), REUSED[6]);
  }

  ghost predicate MayReturnHome(m: Manager, token: nat)
    requires token < |m.accepted|
  {
    exists now, target, room ::
      var u := Step(m, Resend(token, now, target, room));
      |u.sent| > |m.sent| && u.sent[|m.sent|].linkId == m.accepted[token].1
  }

  lemma TakenStep(m: Manager, e: Event, token: nat)
    requires token in Step(m, e).retrying
    ensures || (token in m.retrying && Step(m, e).retrying[token] == m.retrying[token])
            || (e.Take? && Step(m, e).retrying[token].1 == e.node && e.requestId in m.pending
                && Step(m, e).retrying[token].0 == m.pending[e.requestId].command)
  {
    hide CanRetry, Tokens;
  }

  /** The take that put a command in the hands of the retry pass. */
  lemma {:induction false} TakenBy(es: seq<Event>, n: nat, token: nat) returns (k: nat)
    requires n <= |es| && token in ManagerAt(es, n).retrying
    ensures k < n && es[k].Take?
    ensures es[k].node == ManagerAt(es, n).retrying[token].1
    ensures es[k].requestId == ManagerAt(es, n).retrying[token].0.requestId
  {
    hide Step;
    assert n > 0;
    var m, e := ManagerAt(es, n - 1), es[n - 1];
    assert ManagerAt(es, n) == Step(m, e);
    TakenStep(m, e, token);
    SendsCarryTheForwardedCommand(es, n - 1);
    if token in m.retrying && ManagerAt(es, n).retrying[token] == m.retrying[token] {
      k := TakenBy(es, n - 1, token);
    } else {
      k := n - 1;
    }
  }

  /**
   The retry pass can write a command to its first link again exactly when the take that found it
   was working for another node.  A take does that only for a request id that was accepted again.
   */
  lemma ReturnsHomeIff(es: seq<Event>, n: nat, token: nat) returns (k: nat)
    requires n <= |es| && token in ManagerAt(es, n).retrying
    requires token < |ManagerAt(es, n).accepted|
    ensures k < n && es[k].Take?
    ensures var m := ManagerAt(es, n);
            && es[k].requestId == m.accepted[token].0.requestId
            && (MayReturnHome(m, token) <==> es[k].node != m.accepted[token].1)
            && (es[k].node != m.accepted[token].1 ==> !Sole(m.accepted, es[k].requestId))
  {
    var m := ManagerAt(es, n);
    k := TakenBy(es, n, token);
    AtMostOneRetry(es, n);
    SendsCarryTheForwardedCommand(es, n);
    hide ManagerAt, SentOnce, PendingInv, ForwardingInv, PendingHomes, ForwardingHomes, SentHomes, Sole;
    HomeWhenSole(es, n, token);
    var (c, node) := m.retrying[token];
    var home := m.accepted[token].1;
    if node != home {
      var u := Step(m, Resend(token, 0, Some(home), true));
      assert u.sent[|m.sent|] == Sent(token, c, home, true, 0);
    }
  }

  lemma HomeWhenSole(es: seq<Event>, n: nat, token: nat)
    requires n <= |es| && token in ManagerAt(es, n).retrying && token < |ManagerAt(es, n).accepted|
    ensures var m := ManagerAt(es, n);
            Sole(m.accepted, m.accepted[token].0.requestId) ==> m.retrying[token].1 == m.accepted[token].1
  {
    hide ManagerAt, Sole, HomesInv, SendsInv, UntriedFrom, CollectedAtHome, RelinkingTried, RetriesElsewhere;
    var m := ManagerAt(es, n);
    var q := m.accepted[token].0.requestId;
    if Sole(m.accepted, q) {
      AwayAlways(es, n, q);
      assert Uses(m.accepted, token, q);
    }
  }
}
