/**
 Clients, network and Message node together.  Every user runs one client over one database; the
 network and the gateways may lose, repeat and reorder what the clients send in any way.
 */
module EndToEnd {
  import opened Options
  import opened MessageTables
  import opened Accept
  import opened MessageCore
  import Resends
  import ClientStore
  import Client = ClientOutbox

  // ---------------------------------------------------------------- client message ids on the wire

  function DigitValue(c: char): nat {
    if '0' <= c <= '9' then (c - '0') as nat else 0
  }

  function ValueOf(s: string): nat
    decreases |s|
  {
    if s == [] then 0 else ValueOf(s[..|s| - 1]) * 10 + DigitValue(s[|s| - 1])
  }

  lemma {:induction false} DigitsValue(n: nat)
    ensures ValueOf(Digits(n)) == n
    decreases n
  {
    if n < 10 {
      assert Digits(n) == ["0123456789"[n]] && Digits(n)[..0] == "";
    } else {
      DigitsValue(n / 10);
      var front := Digits(n / 10);
      assert Digits(n) == front + ["0123456789"[n % 10]];
      assert (front + ["0123456789"[n % 10]])[..|front|] == front;
    }
  }

  /** User id, colon, number of the message. */
  function WireId(uid: int, clientId: int): string {
    Decimal(uid) + ":" + Decimal(-clientId)
  }

  /** One user's composed messages have different ids on the wire. */
  lemma WireIdInjective(uid: int, a: int, b: int)
    requires a < 0 && b < 0 && WireId(uid, a) == WireId(uid, b)
    ensures a == b
  {
    hide Digits;
    var prefix := Decimal(uid) + ":";
    assert WireId(uid, a)[|prefix|..] == Digits(-a) && WireId(uid, b)[|prefix|..] == Digits(-b);
    DigitsValue(-a);
    DigitsValue(-b);
  }

  // ---------------------------------------------------------------- from the client's log to commands

  /** The command a sent text becomes; a conversation without a recipient is never sent. */
  function CommandFor(uid: int, s: Client.Sent): Command {
    match s.conversation
    case Direct(peer) => DirectText(uid, peer, WireId(uid, s.clientId), s.body)
    case Group(gid) => GroupText(uid, gid, WireId(uid, s.clientId), s.body)
    case LocalOnly(_) => DirectText(uid, 0, WireId(uid, s.clientId), s.body)
  }

  ghost function SentBy(runs: map<int, seq<Client.Event>>, uid: int): seq<Client.Sent> {
    if uid in runs then Client.ControllerAt(runs[uid], |runs[uid]|).sent else []
  }

  ghost predicate FromClient(runs: map<int, seq<Client.Event>>, c: Command) {
    exists k :: 0 <= k < |SentBy(runs, c.sender)| && c == CommandFor(c.sender, SentBy(runs, c.sender)[k])
  }

  /** Every text the Message node executes was sent by its sender's client, some number of times. */
  ghost predicate Carried(runs: map<int, seq<Client.Event>>, es: seq<Event>) {
    forall i, c :: IsSend(es, i, c) ==> FromClient(runs, c)
  }

  /** Two commands with the same key come from one composed message. */
  lemma SameKeySameCommand(runs: map<int, seq<Client.Event>>, c: Command, d: Command)
    requires FromClient(runs, c) && FromClient(runs, d) && Key(c) == Key(d)
    ensures c == d
  {
    hide Client.ControllerAt, WireId;
    var uid := c.sender;
    var sent := SentBy(runs, uid);
    var k :| 0 <= k < |sent| && c == CommandFor(uid, sent[k]);
    var l :| 0 <= l < |sent| && d == CommandFor(uid, sent[l]);
    var run := runs[uid];
    Client.OneMessagePerId(run, |run|, k, k);
    Client.OneMessagePerId(run, |run|, l, l);
    WireIdInjective(uid, sent[k].clientId, sent[l].clientId);
    Client.OneMessagePerId(run, |run|, k, l);
  }

  lemma KeysNameOneCommand(runs: map<int, seq<Client.Event>>, es: seq<Event>)
    requires Carried(runs, es)
    ensures Resends.KeysNameOneCommand(es)
  {
    hide FromClient;
    forall i, j, c, d | IsSend(es, i, c) && IsSend(es, j, d) && Key(c) == Key(d)
      ensures c == d
    {
      SameKeySameCommand(runs, c, d);
    }
  }

  /**
   From the composer to the log: whatever the network repeats or reorders and however often
   clients fail, restart and resend, a composed message is refused as a conflict exactly when it
   is in the log already and its two users have come to share another conversation since.
   */
  lemma ComposedMessageConflictsIff(runs: map<int, seq<Client.Event>>, es: seq<Event>, i: nat, c: Command)
    requires Carried(runs, es) && IsSend(es, i, c)
    ensures ReplyAt(EmptyTables(), es, i) == Failed(IdempotencyConflict)
            <==> Resends.MovedAway(StateAt(EmptyTables(), es, i), c)
  {
    hide Inv, ReplyAt, StateAt, Resends.MovedAway, Carried;
    KeysNameOneCommand(runs, es);
    Resends.ConflictIff(es, i, c);
  }

  /** So none conflicts while friendships last. */
  lemma NoComposedMessageConflicts(runs: map<int, seq<Client.Event>>, es: seq<Event>, i: nat, c: Command)
    requires Carried(runs, es) && Resends.NobodyUnfriends(es) && IsSend(es, i, c)
    ensures ReplyAt(EmptyTables(), es, i) != Failed(IdempotencyConflict)
  {
    hide Inv, ReplyAt, Carried;
    KeysNameOneCommand(runs, es);
    Resends.NoConflict(es, i, c);
  }

  lemma RowOfCommand(row: Message, c: Command, time: string)
    ensures Fixed(row) == NewMessage(c, row.conversationId, row.conversationSeq, time) ==>
              row.senderId == c.sender && row.clientMessageId == c.clientMessageId && row.content == c.content
              && row.receiverId == (if c.DirectText? then c.receiver else c.groupId)
  {
  }

  /** Every row of the log is a composed message of its sender, with its text, and has it to itself. */
  lemma RowsAreComposedMessages(runs: map<int, seq<Client.Event>>, es: seq<Event>, id: int) returns (k: nat)
    requires Carried(runs, es) && id in StateAt(EmptyTables(), es, |es|).log.messages
    ensures var rows := StateAt(EmptyTables(), es, |es|).log.messages;
            var row := rows[id];
            && k < |SentBy(runs, row.senderId)|
            && var s := SentBy(runs, row.senderId)[k];
               && row.clientMessageId == WireId(row.senderId, s.clientId) && row.content == s.body
               && (s.conversation.Direct? ==> row.receiverId == s.conversation.peer)
               && (s.conversation.Group? ==> row.receiverId == s.conversation.gid)
               && forall other :: other in rows && ClientKey(rows[other]) == ClientKey(row) ==> other == id
  {
    hide Inv, StateAt, WireId, SentBy, CommandOf, RouteOf;
    var t := StateAt(EmptyTables(), es, |es|);
    OneRowPerKey(t);
    var row := t.log.messages[id];
    var i := Resends.Provenance(es, |es|, id);
    var c := CommandOf(es[i].request).value;
    RowOfCommand(row, c, es[i].sendDateTime);
    assert IsSend(es, i, c);
    assert FromClient(runs, c);
    k :| 0 <= k < |SentBy(runs, c.sender)| && c == CommandFor(c.sender, SentBy(runs, c.sender)[k]);
  }

  // ---------------------------------------------------------------- one client per user

  /** The first message of a new installation. */
  function FirstMessage(to: ClientStore.Conversation, body: string): seq<Client.Event> {
    [Client.Compose(to, body, true, true, false, false)]
  }

  lemma FirstMessageSent(to: ClientStore.Conversation, body: string)
    requires Client.HasRecipient(to) && body != ""
    ensures Client.ControllerAt(FirstMessage(to, body), 1).sent == [Client.Sent(Client.FIRST_ID, to, body)]
  {
    var es := FirstMessage(to, body);
    assert Client.ControllerAt(es, 0) == Client.FIRST_START;
    assert Client.ControllerAt(es, 1) == Client.Step(Client.FIRST_START, es[0]);
  }

  /** The packet the client makes of a direct text. */
  function RequestFor(uid: int, peer: int, clientId: int, body: string): TextRequest {
    TextRequest(false, uid, peer, true, WireId(uid, clientId), 0, body)
  }

  lemma RequestCarries(uid: int, peer: int, clientId: int, body: string)
    requires uid > 0 && peer > 0 && body != ""
    ensures CommandOf(RequestFor(uid, peer, clientId, body)) ==
            Some(CommandFor(uid, Client.Sent(clientId, ClientStore.Direct(peer), body)))
  {
    assert ':' in WireId(uid, clientId);
  }

  /**
   A command under the key of a stored one: the Message node takes it for a repeat exactly when
   conversation, target and text are the same, and then does not deliver it; otherwise it refuses it.
   */
  lemma SecondUnderSameKey(t: Tables, c: Command, d: Command, id: int, cid: int, seqNo: nat, time: string, gap: nat)
    requires Inv(t) && StoredAs(t, c, id, cid, seqNo) && Key(c) == Key(d) && RouteOf(t.social, d).Routed?
    ensures var reply := Execute(t, d, time, gap, NoFault).1;
            if RouteOf(t.social, d).conversationId == cid && Target(c) == Target(d) && c.content == d.content
            then reply.Accepted? && reply.duplicate && reply.messageId == id
            else reply == Failed(IdempotencyConflict)
  {
    AnswerExact(t, d, time, gap, NoFault);
    if Execute(t, d, time, gap, NoFault).1.Accepted? {
      AcceptedSame(t, c, d, time, gap, NoFault, id, cid, seqNo);
    }
    hide Inv, Execute, RouteOf;
  }

  /** Two installations of one account, each sending its first message to a friend. */
  function TwoInstallations(uid: int, p: int, session: int, body: string, q: int, other: int, text: string): seq<Event> {
    [InsertFriend(uid, p, session), InsertFriend(uid, q, other),
     Send(RequestFor(uid, p, Client.FIRST_ID, body), "", 0, NoFault),
     Send(RequestFor(uid, q, Client.FIRST_ID, text), "", 0, NoFault)]
  }

  lemma FriendsMade(uid: int, p: int, session: int, body: string, q: int, other: int, text: string)
    ensures var t := StateAt(EmptyTables(), TwoInstallations(uid, p, session, body, q, other, text), 2);
            && t == EmptyTables().(social := t.social)
            && (uid, p) in t.social.friends && (uid, q) in t.social.friends
            && t.social.friends[(uid, p)] == session && t.social.friends[(uid, q)] == if p == q then session else other
  {
    hide Inv;
    var es := TwoInstallations(uid, p, session, body, q, other, text);
    assert StateAt(EmptyTables(), es, 0) == EmptyTables();
    assert StateAt(EmptyTables(), es, 1) == Step(EmptyTables(), es[0]);
    assert StateAt(EmptyTables(), es, 2) == Step(StateAt(EmptyTables(), es, 1), es[1]);
  }

  lemma FirstInstallationSends(uid: int, p: int, session: int, body: string, q: int, other: int, text: string)
    requires uid > 0 && p > 0 && body != ""
    ensures var es := TwoInstallations(uid, p, session, body, q, other, text);
            var t, u := StateAt(EmptyTables(), es, 2), StateAt(EmptyTables(), es, 3);
            var c := DirectText(uid, p, WireId(uid, Client.FIRST_ID), body);
            var first := ReplyAt(EmptyTables(), es, 2);
            && ShouldDeliver(first) && first.conversationId == session && u.social == t.social
            && StoredAs(u, c, first.messageId, session, first.conversationSeq)
  {
    hide Inv, Execute, Grows, StoredAs, WireId;
    var es := TwoInstallations(uid, p, session, body, q, other, text);
    var c := DirectText(uid, p, WireId(uid, Client.FIRST_ID), body);
    FriendsMade(uid, p, session, body, q, other, text);
    RequestCarries(uid, p, Client.FIRST_ID, body);
    var t := StateAt(EmptyTables(), es, 2);
    assert StateAt(EmptyTables(), es, 3) == Step(t, es[2]);
    AnswerExact(t, c, "", 0, NoFault);
    Resends.ExecuteAddsItsRow(t, c, "", 0, NoFault);
    var u := Execute(t, c, "", 0, NoFault).0;
    ExecuteKeepsInv(t, c, "", 0, NoFault);
    GrowsReflexive(u);
    AcceptedIsStored(t, c, "", 0, NoFault, u);
  }

  /**
   Two installations of one account break the rule of one client per user: their first messages
   go out under the same id.  The first is delivered.  The second is refused as a conflict exactly
   when its friend or its text differs; otherwise it is taken for a repeat of the first, answered
   with that message and never delivered.
   */
  lemma SecondInstallationIsRefusedIff(uid: int, p: int, session: int, body: string, q: int, other: int, text: string)
    requires uid > 0 && p > 0 && q > 0 && body != "" && text != ""
    ensures Client.ControllerAt(FirstMessage(ClientStore.Direct(p), body), 1).sent ==
            [Client.Sent(Client.FIRST_ID, ClientStore.Direct(p), body)]
    ensures Client.ControllerAt(FirstMessage(ClientStore.Direct(q), text), 1).sent ==
            [Client.Sent(Client.FIRST_ID, ClientStore.Direct(q), text)]
    ensures var es := TwoInstallations(uid, p, session, body, q, other, text);
            var first, second := ReplyAt(EmptyTables(), es, 2), ReplyAt(EmptyTables(), es, 3);
            && ShouldDeliver(first)
            && (second == Failed(IdempotencyConflict) <==> p != q || body != text)
            && (p == q && body == text ==> second.Accepted? && second.duplicate && second.messageId == first.messageId)
  {
    hide Inv, Execute, StoredAs, WireId, StateAt;
    FirstMessageSent(ClientStore.Direct(p), body);
    FirstMessageSent(ClientStore.Direct(q), text);
    FriendsMade(uid, p, session, body, q, other, text);
    FirstInstallationSends(uid, p, session, body, q, other, text);
    RequestCarries(uid, q, Client.FIRST_ID, text);
    var es := TwoInstallations(uid, p, session, body, q, other, text);
    var c, d := DirectText(uid, p, WireId(uid, Client.FIRST_ID), body), DirectText(uid, q, WireId(uid, Client.FIRST_ID), text);
    var first := ReplyAt(EmptyTables(), es, 2);
    SecondUnderSameKey(StateAt(EmptyTables(), es, 3), c, d, first.messageId, session, first.conversationSeq, "", 0);
  }
}
