/**
 Gateway and Message nodes together: the writes of the gateway's command table are executed by
 Message nodes, each any number of times, in any order, and also never.
 */
module RoutedTexts {
  import Options
  import opened MessageTables
  import opened Accept
  import opened MessageCore
  import opened Resends
  import opened RetrySafety
  import Routing = CommandRouting
  import Receipts
  import RetryTargets

  /** What a command envelope carries; it is written unchanged to every link. */
  datatype Packet = Text(request: TextRequest) | Receipt(ack: Receipts.AckRequest) | Pull | Other

  predicate Asks(e: Event, p: Packet) {
    match p
    case Text(request) => e.Send? && e.request == request
    case Receipt(ack) => e.Ack? && e.ack == ack
    case Pull => false
    case Other => false
  }

  /** `writes` says which write of the gateway each execution came from. */
  ghost predicate Executes(es: seq<Event>, writes: map<nat, nat>, sent: seq<Routing.Sent>,
                           packet: Routing.Command -> Packet)
  {
    forall i :: i in writes ==>
      i < |es| && writes[i] < |sent| && Asks(es[i], packet(sent[writes[i]].command))
  }

  /** Two writes of one Forward carry the same command. */
  lemma SameTokenSameCommand(gs: seq<Routing.Event>, k: nat, l: nat)
    requires var sent := Routing.ManagerAt(gs, |gs|).sent;
             k < |sent| && l < |sent| && sent[k].token == sent[l].token
    ensures var sent := Routing.ManagerAt(gs, |gs|).sent; sent[k].command == sent[l].command
  {
    hide Routing.ManagerAt;
    RetryTargets.SendsCarryTheForwardedCommand(gs, |gs|);
  }

  lemma SamePacketRepeats(e: Event, f: Event, p: Packet)
    requires Asks(e, p) && Asks(f, p) && (p.Text? ==> CommandOf(p.request).Some?)
    ensures Repeats(e, f)
  {
    hide CommandOf;
  }

  /**
   However often and wherever the writes of one Forward are executed: after a commit every other
   execution leaves rows, numbers, statuses, read times and cursors alone, and its caller is
   called back at most once, and not before the entry is completed.
   */
  lemma OneEffectPerForward(gs: seq<Routing.Event>, es: seq<Event>, writes: map<nat, nat>,
                            packet: Routing.Command -> Packet, t: Tables, i: nat, j: nat)
    requires Inv(t) && Executes(es, writes, Routing.ManagerAt(gs, |gs|).sent, packet)
    requires i < j && i in writes && j in writes
    requires var sent := Routing.ManagerAt(gs, |gs|).sent; sent[writes[i]].token == sent[writes[j]].token
    ensures j < |es|
    ensures Committed(StateAt(t, es, i), es[i]) ==>
              OnlyEnrols(StateAt(t, es, j), StateAt(t, es, j + 1))
    ensures var m := Routing.ManagerAt(gs, |gs|);
            var token := m.sent[writes[i]].token;
            m.calls[token] == if token in Routing.Tokens(m.pending) then 0 else 1
  {
    hide Inv, StateAt, Routing.ManagerAt, Committed, OnlyEnrols, CommandOf, Routing.CallsInv;
    var m := Routing.ManagerAt(gs, |gs|);
    SameTokenSameCommand(gs, writes[i], writes[j]);
    Routing.ExactlyOneCallback(gs, |gs|);
    Routing.AtMostOneRetry(gs, |gs|);
    var p := packet(m.sent[writes[i]].command);
    if Committed(StateAt(t, es, i), es[i]) {
      CommittedAsks(StateAt(t, es, i), es[i], p);
      SamePacketRepeats(es[i], es[j], p);
      RepeatChangesNothing(t, es, i, j);
    }
  }

  lemma CommittedAsks(t: Tables, e: Event, p: Packet)
    requires Inv(t) && Asks(e, p) && Committed(t, e)
    ensures p.Text? ==> CommandOf(p.request).Some?
  {
    hide Inv, Execute, CommandOf;
  }

  /**
   Whichever node's answer reaches the waiting caller, it names the same message: two accepted
   answers to the writes of one Forward agree, and at most the earlier one asks for a delivery.
   */
  lemma AnswersAgree(gs: seq<Routing.Event>, es: seq<Event>, writes: map<nat, nat>,
                     packet: Routing.Command -> Packet, t: Tables, i: nat, j: nat)
    requires Inv(t) && Executes(es, writes, Routing.ManagerAt(gs, |gs|).sent, packet)
    requires i < j && i in writes && j in writes
    requires var sent := Routing.ManagerAt(gs, |gs|).sent; sent[writes[i]].token == sent[writes[j]].token
    requires es[i].Send? && ReplyAt(t, es, i).Accepted?
    ensures es[j].Send?
    ensures ReplyAt(t, es, j).Accepted? ==>
              var a, b := ReplyAt(t, es, i), ReplyAt(t, es, j);
              && a.messageId == b.messageId && a.conversationId == b.conversationId
              && a.conversationSeq == b.conversationSeq && !ShouldDeliver(b)
  {
    hide Inv, StateAt, Routing.ManagerAt, CommandOf, Execute;
    SameTokenSameCommand(gs, writes[i], writes[j]);
    assert es[i].request == es[j].request;
    if ReplyAt(t, es, j).Accepted? {
      var c := CommandOf(es[i].request).value;
      assert IsSend(es, i, c) && IsSend(es, j, c);
      ExactlyOnce(t, es, i, j, c, c);
    }
  }

  // ---------------------------------------------------------------- what is retried

  /** The packet is of the kind its service is for. */
  predicate Suits(serviceId: int, p: Packet) {
    match p
    case Text(request) => serviceId == if request.group then Routing.GROUP_TEXT_SEND else Routing.TEXT_SEND
    case Receipt(_) => serviceId == Routing.ACK
    case Pull =>
      || serviceId == Routing.PULL_FRIEND_LIST || serviceId == Routing.PULL_FRIEND_APPLY_LIST
      || serviceId == Routing.PULL_SESSION_MESSAGE_LIST || serviceId == Routing.PULL_MESSAGE_LIST
    case Other =>
      serviceId !in {Routing.GROUP_TEXT_SEND, Routing.TEXT_SEND, Routing.ACK, Routing.PULL_FRIEND_LIST,
                     Routing.PULL_FRIEND_APPLY_LIST, Routing.PULL_SESSION_MESSAGE_LIST, Routing.PULL_MESSAGE_LIST}
  }

  /**
   In every run a command that is written a second time is a text or a receipt, whose repeats
   change nothing, or a pull; a command of any other service is never written again.
   */
  lemma RetriedIsReplaySafe(gs: seq<Routing.Event>, n: nat, i: nat, p: Packet)
    requires n <= |gs| && i < |Routing.ManagerAt(gs, n).sent| && Routing.ManagerAt(gs, n).sent[i].retry
    requires Suits(Routing.ManagerAt(gs, n).sent[i].command.serviceId, p)
    ensures p.Text? || p.Receipt? || p.Pull?
    ensures forall e :: Asks(e, p) ==> ServiceOf(e) == Routing.ManagerAt(gs, n).sent[i].command.serviceId
  {
    hide Routing.ManagerAt;
    Routing.AtMostOneRetry(gs, n);
    assert Routing.SoundRetry(Routing.ManagerAt(gs, n).sent[i]);
  }

  /** The state after a link is lost and one command waiting on it is taken, resent and noted. */
  function AfterLoss(m: Routing.Manager, node: string, id: string, token: nat, now: nat, target: string): Routing.Manager {
    var collected := Routing.Step(m, Routing.Collect(node));
    var taken := Routing.Step(collected, Routing.Take(node, id));
    var resent := Routing.Step(taken, Routing.Resend(token, now, Options.Some(target), true));
    Routing.Step(resent, Routing.Relink(id, target))
  }

  /** A text, receipt or pull that waits on a lost link, with time left and room elsewhere, is written again there. */
  lemma LostLinkIsRetried(gs: seq<Routing.Event>, n: nat, id: string, now: nat, target: string, p: Packet)
    requires n <= |gs| && id in Routing.ManagerAt(gs, n).pending
    requires var entry := Routing.ManagerAt(gs, n).pending[id];
             && entry.attempts == 0 && Suits(entry.command.serviceId, p) && !p.Other?
             && now < entry.command.deadline && target != entry.linkId
    ensures var m := Routing.ManagerAt(gs, n);
            var entry := m.pending[id];
            var u := AfterLoss(m, entry.linkId, id, entry.token, now, target);
            && u.sent == m.sent + [Routing.Sent(entry.token, entry.command, target, true, now)]
            && id in u.pending && u.pending[id].linkId == target && u.calls == m.calls
  {
    Routing.ExactlyOneCallback(gs, n);
    var m := Routing.ManagerAt(gs, n);
    hide Routing.ManagerAt, Routing.CalledOnce;
    var entry := m.pending[id];
    assert entry.command.requestId == id;
    hide Routing.TokensDistinct;
    LossRetries(m, id, now, target);
  }

  lemma LossRetries(m: Routing.Manager, id: string, now: nat, target: string)
    requires id in m.pending && m.pending[id].attempts == 0 && Routing.CanRetry(m.pending[id].command.serviceId)
    requires m.pending[id].command.requestId == id
    requires now < m.pending[id].command.deadline && target != m.pending[id].linkId
    ensures var entry := m.pending[id];
            var u := AfterLoss(m, entry.linkId, id, entry.token, now, target);
            && u.sent == m.sent + [Routing.Sent(entry.token, entry.command, target, true, now)]
            && id in u.pending && u.pending[id].linkId == target && u.calls == m.calls
  {
    hide Routing.CanRetry, Routing.Tokens, Routing.Completed;
    var entry := m.pending[id];
    var collected := Routing.Step(m, Routing.Collect(entry.linkId));
    assert (entry.linkId, id) in collected.collected;
    var taken := Routing.Step(collected, Routing.Take(entry.linkId, id));
    assert taken.retrying[entry.token] == (entry.command, entry.linkId) && taken.sent == m.sent;
  }
}
