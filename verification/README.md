# wimi in Dafny

A model of the wimi instant-messaging system, with proofs about whole runs of its protocols.

* **Conversation log** (`MessageTables`, `Accept`, `Receipts`, `Sync`, `MessageCore`, `Deliveries`, `Resends`,
  `Answers`, `SyncWindows`, `ReceiptHistory`, `CursorHistory`, `MysqlDao`): the transactions of the Message node over
  friends, groups, conversations, members and messages. Texts are accepted once, logs are dense, pages lose nothing,
  receipts only move forward.
* **Session leases** (`SessionLeases`, `LeaseUse`, `SessionRegistry`, `StreamRegistry`): Redis scripts, the gateway's
  local map filled in two steps, the Message node's check, and its registry of gateway streams.
* **Command routing** (`CommandRouting`, `RetryTargets`, `MessageLinkManager`, `Rendezvous`, `StreamWriter`,
  `SessionWriter`, `RetrySafety`, `RoutedTexts`): pending commands, one retry on another node, the choice of a link, the
  bounded write queues, and why a retry is safe.
* **Client** (`FrameCodec`, `RequestQueues`, `RequestWrites`, `RequestTimers`, `ConnectionGatewayClient`,
  `ClientStore`, `ClientOutbox`, `OutboxOutcomes`, `SqliteClientRepository`, `AppController`): frame decoding, request
  queues, and an outbox that survives failing writes and restarts.
* **End to end** (`EndToEnd`): from a composed message to its row in the log.

Each protocol is a state and a `Step` function over atomic events; a run is any sequence of events, so every
interleaving, failure and repetition is covered. The classes hold the code's own fields and loops, and their methods
are proved against those steps. `dafny verify dfyconfig.toml` checks the project.

Where the code does not give a property its comments or its design suggest, a lemma shows a run in which it fails
and another states exactly when it holds (for the group text the condition stands alone):

* a failure answer can hide a commit (`LostAnswerHidesRow`, `FailureChangesNothingIff`);
* a gateway's local map can lag behind Redis (`LocalMapMayLag`, `BindServesIff`);
* a stream that registers twice under different names leaves an entry for a deleted reactor (`RenamedStreamDangles`,
  `IdentityIsNeeded`), and a reused reactor address is mistaken for the old stream (`ReusedAddressIsMistaken`,
  `ReplyGoesHomeIff`);
* a request id used twice can be retried on the link it came from (`ReusedIdIsRetriedAtHome`, `RetryGoesElsewhere`,
  `ReturnsHomeIff`);
* a group text sent again enrols members that joined since (`GroupResendChangesNothingIff`);
* the answer to a quit can be lost (`QuitAnswerCanBeLost`, `LastWordsWrittenIff`);
* frames in front of an oversized header may be dropped (`CuttingMattersOnError`, `FeedingParses`);
* a second login answer on one connection, while the client is closing, can strand a request (`BadLoginStrands`,
  `HeadLiveIff`, `BadLoginBreaks`); the client itself logs in once per connection;
* a message that sync brings back before its own answer arrives is left in the outbox: no answer with its server id can
  be stored any more (`SyncedCopyBlocksAcceptance`, `CopyBlocksForever`, `AcceptBlockedIff`), and while it is there every
  restart sends it again (`OutboxIsResent`);
* two installations of one account share client message ids, and the second one's first message is refused or taken
  for a repeat (`SecondInstallationIsRefusedIff`).

## Model

| member | source | states |
|---|---|---|
| `Accept.UpsertNeverMoves` | server/public/include/Mysql.h:632-640 | In tables whose business keys are in order, the insert-or-update of a conversation inserts or does nothing: the branch that would move a conversation to another id cannot be reached |
| `Accept.AnswerExact` | server/public/include/Mysql.h:664-726 | From the route and the client index alone: a command is new exactly when it is routed, its key is free and nothing fails, a duplicate exactly when the key holds the same command, a conflict exactly when it holds another, and a new one gets the next number |
| `Accept.PreparedKeepsInv` | server/public/include/Mysql.h:632-648 | Finding or creating the conversation and enrolling the audience keeps the table invariant, and no row, cursor or number goes back |
| `Accept.AppendedKeepsInv` | server/public/include/Mysql.h:690-726 | Taking the next number and inserting the row keeps the log dense, ordered by message id, and both unique indexes exact |
| `Accept.ExecuteKeepsInv` | server/public/include/Mysql.h:738-874 | A whole accept transaction, direct or group, committed, rolled back or with its answer lost, keeps the invariant and only grows the tables |
| `Answers.PacketFields` | server/message/src/service/MessageService.cc:18-50 | A packet is usable exactly when user, target, text and some client id are there; the command carries its fields unchanged, to the group or to the user, and without a client id the decimal sequence number stands in |
| `Answers.DirectAnswer` | server/public/include/Mysql.h:619-632 | From the friends table alone: a direct text is refused exactly without a friendship, whatever the database does; an accepted one lies in the friendship's conversation and is for the receiver and nobody else |
| `Answers.GroupAnswer` | server/public/include/Mysql.h:748-768 | From the group tables alone: a group text is refused as foreign exactly for non-members and as muted exactly for members that may not speak; accepted, it lies in the group's conversation and its recipients are exactly the other members |
| `Answers.RowHoldsTheCommand` | server/public/include/Mysql.h:699-722 | The new row holds the command's sender, target, text and client id and the given time, unread, under the id and number of the answer |
| `Answers.NewcomerWindow` | server/public/include/Mysql.h:642-648 | A member enrolled by an accepted text reads a direct chat from number 1 on and a group from the message after those already there |
| `Answers.UpsertKeepsCounter` | server/public/include/Mysql.h:633-640 | The row found through its business key goes on counting where it was, under whichever id, and no row is added |
| `Answers.JoinStands` | server/public/include/Mysql.h:1292-1308 | Over any run, the speech state a user joins a group with is the one every later text is judged by |
| `Answers.GroupStands` | server/public/include/Mysql.h:1278-1290 | Over any run, a group keeps the conversation it was created with |
| `Answers.UnfriendedIsRefused` | server/public/include/Mysql.h:1245-1253 | Over any run, after a friend is removed every text to them is refused and changes nothing, until they are a friend again |
| `MessageCore.StepKeepsInv` | server/message/src/service/MessageService.cc:18-206 | Every event of the Message node keeps the table invariant and only grows the tables |
| `MessageCore.RunGrows` | server/public/include/Mysql.h:610-1117 | Between any two moments of any run nothing is taken back: rows, numbers, read times and cursors |
| `MessageCore.DenseLog` | server/public/include/Mysql.h:650-697 | In every reachable state the sequence numbers of a conversation are exactly 1..latestSeq, each once, and their order is the order of message ids |
| `MessageCore.ExactlyOnce` | server/message/src/service/MessageService.cc:18-143 | Over any run, two accepted answers for the same sender and client id carry the same message id, conversation and number, the later one asks for no delivery, and a key has one row |
| `MessageCore.AcceptedSame` | server/public/include/Mysql.h:664-689 | An accepted command under a taken key is answered with the stored message and marked a duplicate |
| `MessageCore.AcceptedIsStored` | server/public/include/Mysql.h:690-726 | What an accepted answer promises is in the tables and stays there in every later state |
| `MessageCore.StoredIsDuplicate` | server/public/include/Mysql.h:797-818 | A command already stored is never accepted as new, whatever happens to its transaction |
| `Resends.FailureChangesNothingIff` | server/public/include/Mysql.h:664-736 | A command answered with a failure leaves every table as it was, up to burned auto-increment ids, except exactly when the commit succeeded, its answer was lost, and there was a new row or a new member to write |
| `RetrySafety.LostAnswerHidesRow` | server/public/include/Mysql.h:722-735 | A run with that case: the sender is told of a database failure although the text has been written |
| `Deliveries.RecipientJoinedBefore` | server/public/include/Mysql.h:775-781 | Every recipient of a new message is a member that joined no later than the message's number |
| `Deliveries.FanOutVisible` | server/public/include/Mysql.h:852-862 | Every recipient of a newly accepted message can read it: now and in every later state its sync window holds the number, and a one-row pull just before it returns that row |
| `Resends.ResendSafe` | server/public/include/Mysql.h:664-689 | Executing a text again at any later point leaves rows, numbers, statuses, read times and cursors as they were and answers with the first message or not at all |
| `Resends.DirectResendChangesNothing` | server/public/include/Mysql.h:664-689 | For a direct text the repeat changes nothing whatever |
| `Resends.GroupResendChangesNothingIff` | server/public/include/Mysql.h:775-818 | For a group text the repeat changes nothing exactly when everyone now in the group is already a member; otherwise it enrols the newcomers |
| `Resends.Provenance` | server/public/include/Mysql.h:703-726 | Every row of every reachable state goes back to a send of its sender with that text, client id and conversation |
| `Resends.ConflictIff` | server/public/include/Mysql.h:672-680 | If a sender uses a client id for one command only, a command of any run is refused as a conflict exactly when it is stored already and its sender and target have come to share another conversation |
| `Resends.NoConflict` | server/public/include/Mysql.h:672-680 | While nobody is unfriended and a sender uses a client id for one command only, no command of any run is refused as a conflict, however often it is repeated |
| `RetrySafety.RepeatChangesNothing` | server/gateway/src/MessageLink.cc:40-53 | Texts and receipts are services the gateway may repeat, and in any run a repeat of one whose earlier copy committed, answered or not, leaves rows, numbers, statuses, read times and cursors alone; a repeated receipt changes nothing at all |
| `RetrySafety.RepeatedPullExtends` | server/public/include/Mysql.h:876-936 | A conversation pull repeated at any later time starts with the rows it gave before and reaches at least as far |
| `RoutedTexts.OneEffectPerForward` | server/gateway/src/MessageLink.cc:778-815 | Gateway and Message nodes in one run: however often and wherever the writes of one Forward are executed, after one commit the others leave rows, numbers, statuses, read times and cursors alone, and the caller is called back once, when its entry leaves |
| `RoutedTexts.AnswersAgree` | server/gateway/src/MessageLink.cc:532-560 | Whichever node's answer reaches the caller, all accepted answers to the writes of one Forward name the same message, conversation and number, and at most the earliest asks for a delivery |
| `RetrySafety.RepeatIsAnsweredAlike` | server/message/src/service/MessageService.cc:18-82 | Between two new friends any valid text is delivered as number 1 of their conversation, and its repeat is answered with the same message and not delivered |
| `Receipts.AcknowledgeKeepsInv` | server/message/src/service/MessageService.cc:145-206 | An acknowledgement of any kind keeps 0 <= readSeq <= deliveredSeq <= latestSeq and moves statuses and cursors only forward |
| `Receipts.CursorAdvancedKeepsInv` | server/public/include/Mysql.h:1036-1055 | Moving a cursor directly keeps the same bounds and only moves it forward |
| `Receipts.LegacyReceiptAgrees` | server/public/include/Mysql.h:998-1034 | The older receipt path rewrites a message row exactly as the conversation path does |
| `Receipts.AckReplayChangesNothing` | server/public/include/Mysql.h:1057-1117 | A receipt applied again at any later time, with any clock, changes nothing |
| `CursorHistory.AckAnswer` | server/message/src/service/MessageService.cc:145-206 | Every kind of acknowledgement: malformed ones are refused, transport ones taken without effect, typed ones taken exactly when the message is the reporter's and the database answers and otherwise refused with nothing changed; an untyped one is taken too when there is no such message |
| `CursorHistory.StepMoves` | server/public/include/Mysql.h:1036-1117 | Every event of the node moves a member's cursors to its own report or leaves them, the read cursor only on a read; new members start at 0 |
| `CursorHistory.CursorsAreGreatest` | server/public/include/Mysql.h:1102-1115 | In every reachable state a member's delivered cursor is the greatest number it ever reported and its read cursor the greatest it reported read, 0 without a report |
| `ReceiptHistory.ReceiptFromReceiver` | server/public/include/Mysql.h:1084-1088 | Only the receiver's receipts are recorded on a direct message |
| `ReceiptHistory.StatusIsGreatestReceipt` | server/public/include/Mysql.h:1090-1100 | In every reachable state a message's status is the greatest of its receiver's receipts in whatever order they came, and the read time is that of the first READ and set exactly when the status is READ |
| `Sync.PageExact` | server/public/include/Mysql.h:876-936 | A page is the numbers right after the effective cursor, without a gap, at most the bounded count; hasMore is true exactly when visible messages remain, and then the cursor has moved |
| `Sync.PagingLossless` | server/public/include/Mysql.h:897-931 | Following nextSeq, with any transactions between the pages, yields every message after the cursor exactly once in order up to the final nextSeq, and nothing is missing when the last page says no more |
| `Sync.PullAllExact` | server/public/include/Mysql.h:904-933 | On a quiet log the pull ends (the distance to the end shrinks with every page) and returns every number after the effective cursor up to the last, in order |
| `SyncWindows.PageWindow` | server/public/include/Mysql.h:878-933 | A page from the member row and the arguments alone: its first number is the first after both the cursor and the start of the membership, it goes on without a gap, it is full (the count, 50 without one, 100 at most) while more remain, and it is empty exactly when nothing lies in the window |
| `SyncWindows.PullRefusedIff` | server/public/include/Mysql.h:878-896 | A pull is refused exactly for unusable arguments or for someone who is no member, each with its own code |
| `SyncWindows.NothingAfterLeaving` | server/public/include/Mysql.h:898-911 | A member that has left gets nothing after its last number |
| `SyncWindows.PullAllVisible` | server/public/include/Mysql.h:898-911 | A whole pull returns a message of the conversation exactly when it lies after the cursor and not before the member joined |
| `SyncWindows.PagingVisible` | server/public/include/Mysql.h:898-931 | The same with any transactions between the pages: no page shows a message from before the member joined or one it has read, and after a last page every message it may see has been shown |
| `MysqlDao.MysqlDao.UpsertConversation` | server/public/include/Mysql.h:633-640 | The statement updates both indexes of the conversation table as specified |
| `MysqlDao.MysqlDao.AppendMessage` | server/public/include/Mysql.h:690-722 | Number, row, indexes and id counter move together |
| `MysqlDao.MysqlDao.AcceptPrepared` | server/public/include/Mysql.h:664-726 | Duplicate lookup, conflict, append, commit or rollback give the specified tables and answer |
| `MysqlDao.MysqlDao.AcceptDirectText` | server/public/include/Mysql.h:610-736 | The direct transaction, statement by statement, is the specified one, keeps the invariant and only grows the tables |
| `MysqlDao.MysqlDao.AcceptGroupText` | server/public/include/Mysql.h:738-874 | The group transaction, statement by statement, is the specified one, keeps the invariant, only grows the tables, and names as recipients exactly the other members of the group |
| `MysqlDao.MysqlDao.SyncConversation` | server/public/include/Mysql.h:876-936 | The loop that fills the page returns the specified page, every row of it after the cursor and not before the member joined |
| `MysqlDao.MysqlDao.AcknowledgeConversationMessage` | server/public/include/Mysql.h:1057-1117 | The receipt transaction is the specified one, with its ownership checks: after an update the delivered cursor, and for a read the read cursor, covers the reported number and is that number or the old one |
| `MysqlDao.MysqlDao.UpdateMessageForReceiver` | server/public/include/Mysql.h:998-1034 | The older receipt statement is the specified one, with its result codes |
| `MysqlDao.MysqlDao.AdvanceConversationCursor` | server/public/include/Mysql.h:1036-1055 | The cursor statement is the specified one: a number the conversation has is covered by the cursors it names |
| `SessionLeases.StoredLeaseIsNewest` | server/public/include/Redis.h:295-316 | In every interleaving of binds, refreshes, clears, expiry and lost answers a stored lease has its user's newest generation |
| `SessionLeases.GenerationsRise` | server/public/include/Redis.h:303-308 | A user's generation never goes down |
| `SessionLeases.Fenced` | server/message/src/service/GatewayStreamService.cc:203-218 | Once a newer bind has run, even unseen by its gateway, no command of an older generation passes the Message node again |
| `SessionLeases.LeaseStandsUntilDeadline` | server/public/include/Redis.h:337-376 | Until a newer bind, an eviction or a call of its own holder a lease is stored unchanged up to its deadline and gone from then on: refreshes and clears that name another lease of the user, stale ones included, do not touch it |
| `SessionLeases.DeadlineIsTheHolders` | server/public/include/Redis.h:337-356 | In every run a stored lease has time left, and its deadline was set by its own bind or by a refresh that names exactly it |
| `SessionLeases.GenerationNamesLease` | server/public/include/Redis.h:303-308 | Of one user, a generation belongs to one connection on one gateway instance |
| `SessionLeases.DeliverySafe` | server/gateway/src/SessionRegistry.cc:63-100 | With a bind split in two and any delays, every push is queued on the connection that held the lease when the Message node read it, on the gateway instance the lease names |
| `SessionLeases.LocalMapMayLag` | server/gateway/src/SessionRegistry.cc:17-41 | Two logins whose local halves finish in the opposite order leave the older connection in the local map, and pushes are refused |
| `SessionLeases.BindServesIff` | server/gateway/src/SessionRegistry.cc:17-41 | The local half of a bind makes pushes reach the user exactly when its lease is still the stored one |
| `LeaseUse.PassesMeansBoundLast` | server/message/src/service/GatewayStreamService.cc:203-218 | In every run a command passes only on the gateway instance, connection and generation of a bind of its user after which the user was not bound again |
| `LeaseUse.BoundPasses` | server/public/include/Redis.h:295-316 | A bind that ran makes its own connection pass at once |
| `LeaseUse.ClearReleases` | server/public/include/Redis.h:358-376 | A clear by the holder leaves nothing stored; any other clear changes nothing |
| `LeaseUse.ClearedUntilBind` | server/public/include/Redis.h:358-376 | In every run, after the holder's clear no command of the user passes on any gateway until the user is bound again |
| `LeaseUse.RefreshHolds` | server/public/include/Redis.h:337-356 | A refresh by the holder keeps the lease stored for exactly the time asked for |
| `LeaseUse.RemoveIff` | server/gateway/src/SessionRegistry.cc:47-61 | A closing session leaves its gateway's map exactly when the slot is its own or its occupant is gone; no other slot changes |
| `LeaseUse.ReadThenDeliver` | server/gateway/src/SessionRegistry.cc:63-100 | A lease read and then delivered to: the push is queued exactly when the gateway's live session is the connection that was read and there is room |
| `LeaseUse.DeadGetNothing` | server/gateway/src/SessionRegistry.cc:75-76 | In every run nothing is queued on a connection after its session is gone |
| `SessionRegistry.RedisDao.BindSessionLease` | server/public/include/Redis.h:295-316 | The bind script increments the generation and stores the lease; a lost answer still has the effect |
| `SessionRegistry.RedisDao.GetSessionLease` | server/public/include/Redis.h:317-335 | Returns the stored lease or nothing |
| `SessionRegistry.RedisDao.RefreshSessionLease` | server/public/include/Redis.h:337-356 | Renews the expiry exactly of the lease it names and tells whether that lease is still the stored one |
| `SessionRegistry.RedisDao.ClearSessionLease` | server/public/include/Redis.h:358-376 | Removes exactly the stored lease it names, which is then not stored; reports whether none is left |
| `SessionRegistry.SessionRegistry.Publish` | server/gateway/src/SessionRegistry.cc:17-26 | First half of Bind, as the Redis step of the lease runs: a lease handed out is waiting for its local half and passes the Message node's check at once; none is handed out when the answer was lost |
| `SessionRegistry.SessionRegistry.TakeOver` | server/gateway/src/SessionRegistry.cc:28-41 | Second half of Bind, as the local step: afterwards no envelope reaches another connection of the user here, and exactly a live session that was reachable before is told to close |
| `SessionRegistry.SessionRegistry.Refresh` | server/gateway/src/SessionRegistry.cc:42-45 | The refresh step of the lease runs |
| `SessionRegistry.SessionRegistry.Remove` | server/gateway/src/SessionRegistry.cc:47-61 | The local removal followed by the clear of the named lease: the user stays in the map exactly while a live other connection holds the slot, and once removed the named lease is not stored |
| `SessionRegistry.SessionRegistry.Deliver` | server/gateway/src/SessionRegistry.cc:63-100 | The delivery step: exactly the push the lease runs queue, backpressure exactly when only room is missing, offline exactly when no envelope could reach the user here |
| `SessionRegistry.MayRun` | server/message/src/service/GatewayStreamService.cc:203-218 | The Message node's check of a command against the stored lease |
| `StreamRegistry.RegistryAlive` | server/message/src/service/GatewayStreamService.cc:351-372 | If every stream registers under one identity, every registered reactor is alive in all interleavings and known by the identity it is registered under |
| `StreamRegistry.IdentityIsNeeded` | server/message/src/service/GatewayStreamService.cc:100-117 | Exactly a registration under a second identity leaves, once its stream ends, an entry for a deleted reactor |
| `StreamRegistry.RenamedStreamDangles` | server/message/src/service/GatewayStreamService.cc:106-117 | One stream that asks for a second identity, even refused, is such a case |
| `StreamRegistry.ReplyGoesHomeIff` | server/message/src/service/GatewayStreamService.cc:406-416 | A command arrives over a stream and is answered later: the answer, if written, goes to a stream of the gateway instance it came from, and to that very stream exactly when the stream was not done in between |
| `StreamRegistry.ReplyArrives` | server/message/src/service/GatewayStreamService.cc:406-416 | It does reach that stream if the stream was registered and neither ended nor saw its gateway register again |
| `StreamRegistry.RegistrationStands` | server/message/src/service/GatewayStreamService.cc:360-372 | A registration stands until its own stream ends or its gateway registers again: the late end of an older stream never removes it |
| `StreamRegistry.RegistersIff` | server/message/src/service/GatewayStreamService.cc:106-117 | A stream takes over its gateway's entry exactly with an admitted registration under two non-empty names, and no other gateway's entry changes |
| `StreamRegistry.ReusedAddressIsMistaken` | server/message/src/service/GatewayStreamService.cc:406-416 | Comparing reactor addresses takes a reconnected stream at a reused address for the old one |
| `StreamRegistry.GatewayStreamService.HandleRegister` | server/message/src/service/GatewayStreamService.cc:106-128 | Registration changes the reactor's identity always and the registry exactly when valid |
| `StreamRegistry.GatewayStreamService.OnDone` | server/message/src/service/GatewayStreamService.cc:100-103 | The end of a stream removes its own registration and the reactor |
| `StreamRegistry.GatewayStreamService.DeliverToUser` | server/message/src/service/GatewayStreamService.cc:384-404 | An envelope is sent exactly when the lease read first or the one read again leads to a stream with room; it goes to a live stream of the instance that lease names and carries that lease, the first having precedence |
| `CommandRouting.ExactlyOneCallback` | server/gateway/src/MessageLink.cc:532-560 | For every accepted Forward and any mixture of results, duplicates, timers, full queues, lost links and shutdown: no callback while the entry waits, exactly one after it left |
| `CommandRouting.AtMostOneRetry` | server/gateway/src/MessageLink.cc:778-815 | A forwarded command is written at most once by Forward and at most once as a retry, the retry only for a repeatable service and before the deadline |
| `CommandRouting.AnswerEndsTheWait` | server/gateway/src/MessageLink.cc:532-560 | An answer or a timer takes the entry out and its caller has then been called back once, with nothing written |
| `CommandRouting.StopEndsEveryWait` | server/gateway/src/MessageLink.cc:273-308 | In every run a shutdown leaves no entry, and every command ever accepted has been called back exactly once |
| `CommandRouting.ForwardWritesOrCallsBack` | server/gateway/src/MessageLink.cc:347-375 | The second half of Forward writes the command to the link selected, or without room there calls back at once |
| `RoutedTexts.RetriedIsReplaySafe` | server/gateway/src/MessageLink.cc:40-53 | In every run a command written a second time is a text, a group text, a receipt or one of the four list pulls: a command of any other service is never written again |
| `RoutedTexts.LostLinkIsRetried` | server/gateway/src/MessageLink.cc:778-815 | Each of those seven services, waiting on a lost link for the first time with time left and room elsewhere, is written again there, and the entry waits on the new link without a callback |
| `RetryTargets.SendsCarryTheForwardedCommand` | server/gateway/src/MessageLink.cc:319-375 | Whatever is written is the forwarded command, and the first write goes to the link Forward selected |
| `RetryTargets.RetryGoesElsewhere` | server/gateway/src/MessageLink.cc:778-815 | A command whose request id was accepted once in the run is never retried on the link of its first write, whatever happens to other ids |
| `RetryTargets.ReturnsHomeIff` | server/gateway/src/MessageLink.cc:788-814 | In any run a retry can be written to its command's first link exactly when the pass that found it worked for another node, which happens only for a request id accepted again |
| `RetryTargets.ReusedIdIsRetriedAtHome` | server/gateway/src/MessageLink.cc:788-798 | A request id used twice can have its command written twice to the same link |
| `MessageLinkManager.MessageLinkManager.Forward` | server/gateway/src/MessageLink.cc:319-375 | One Forward call: refused exactly on an empty id, a past deadline, no link or a waiting id; otherwise stored and written, or answered at once when the queue is full |
| `MessageLinkManager.MessageLinkManager.OnResult` | server/gateway/src/MessageLink.cc:532-574 | A result completes its waiting entry once; an unmatched one changes nothing |
| `MessageLinkManager.MessageLinkManager.ExpirePending` | server/gateway/src/MessageLink.cc:744-765 | A timer completes a waiting entry; a late one changes nothing |
| `MessageLinkManager.MessageLinkManager.WaitingOn` | server/gateway/src/MessageLink.cc:778-786 | Collects exactly the ids waiting on a node, each once |
| `MessageLinkManager.MessageLinkManager.RetryPending` | server/gateway/src/MessageLink.cc:778-815 | The two loops of the retry pass are the specified steps for exactly the commands waiting on the failed node |
| `MessageLinkManager.MessageLinkManager.Stop` | server/gateway/src/MessageLink.cc:273-308 | Shutdown runs every waiting callback once and empties the table; a second call does nothing |
| `Rendezvous.BestIsTop` | server/gateway/src/MessageLink.cc:830-841 | The chosen link has the highest score |
| `Rendezvous.OrderIrrelevantIff` | server/gateway/src/MessageLink.cc:830-841 | The choice is independent of iteration order exactly when the top score is held once |
| `Rendezvous.OrderIrrelevant` | server/gateway/src/MessageLink.cc:817-841 | With one top score the choice depends only on the set of healthy links |
| `Rendezvous.LosingOtherLinkKeepsRoute` | server/gateway/src/MessageLink.cc:817-841 | Losing an unchosen link moves no conversation |
| `Rendezvous.NewLinkAttractsOnlyToItself` | server/gateway/src/MessageLink.cc:817-841 | A new link takes conversations only to itself |
| `Rendezvous.RetryFollowsTheRoute` | server/gateway/src/MessageLink.cc:802-804 | The retry target is the route later commands take once the failed link is gone |
| `Rendezvous.SelectLink` | server/gateway/src/MessageLink.cc:817-848 | The loops choose a healthy, not excluded link: highest score for a conversation, fewest in flight otherwise; none exactly when there is none |
| `StreamWriter.AlwaysFifo` | server/gateway/src/MessageLink.cc:103-120 | In every run written, in flight and queued frames are the accepted ones in order, at most one write is outstanding, an idle writer has an empty queue, and at most 4096 frames wait |
| `StreamWriter.RefusedIff` | server/gateway/src/MessageLink.cc:103-110 | A frame is refused exactly when the stream is closed or the in-flight and 4096 waiting frames are all taken |
| `StreamWriter.WrittenGrows` | server/gateway/src/MessageLink.cc:182-205 | What was written is never taken back and is always a prefix of what was accepted |
| `StreamWriter.OutstandingWritesDrain` | server/gateway/src/MessageLink.cc:191-204 | In every run, while writes succeed, as many as are outstanding write everything that was accepted |
| `StreamWriter.FailedWriteIsTheLast` | server/gateway/src/MessageLink.cc:182-190 | In every run nothing is accepted and nothing written after a failed write |
| `StreamWriter.NothingAcceptedAfterClose` | server/gateway/src/MessageLink.cc:103-110 | In every run nothing is accepted once the stream is being closed |
| `StreamWriter.StreamQueue.Enqueue` | server/message/src/service/GatewayStreamService.cc:39-57 | Enqueue is the specified step and answers whether the frame was taken |
| `StreamWriter.StreamQueue.OnWriteDone` | server/message/src/service/GatewayStreamService.cc:80-98 | The end of a write is the specified step |
| `SessionWriter.AlwaysInv` | server/gateway/src/GatewaySession.cc:92-116 | In every run, with callers stopped between test, reservation and post: queuedWrites counts the frames on their way, at most 10240 are, written then queued then posted are the accepted frames until closing, one write at a time of the queue's head, and what is written stays a prefix of what was accepted |
| `SessionWriter.DrainedMeansWritten` | server/gateway/src/GatewaySession.cc:409-425 | An open session with nothing left to do has written everything it accepted |
| `SessionWriter.FailedWriteIsTheLast` | server/gateway/src/GatewaySession.cc:416-419 | In every run a failed write closes the session and nothing is written after it |
| `SessionWriter.ClosedWritesAtMostOne` | server/gateway/src/GatewaySession.cc:411-421 | In every run, after a close at most the write already under way still completes |
| `SessionWriter.LastWordsWrittenIff` | server/gateway/src/GatewaySession.cc:422-424 | A session that closes itself after a quit has written everything exactly when no frame is still posted; otherwise exactly the posted ones are lost |
| `SessionWriter.QuitAnswerCanBeLost` | server/gateway/src/GatewaySession.cc:277-287 | The answer to a quit can be dropped when an earlier write ends first, although it is meant to be written before the close |
| `SessionWriter.GatewaySession.SendRaw` | server/gateway/src/GatewaySession.cc:92-116 | An undisturbed SendRaw: taken exactly when open and below the bound; over it the place is given back and the session closed |
| `SessionWriter.GatewaySession.RunPostedWrite` | server/gateway/src/GatewaySession.cc:104-114 | What SendRaw posted is the specified step |
| `SessionWriter.GatewaySession.WriteLoop` | server/gateway/src/GatewaySession.cc:409-425 | The loop is the specified sequence of write ends, stops at the first failure, and leaves an empty queue or a closed session |
| `FrameCodec.ParseAppend` | client/src/adapters/connection_gateway/TcpFrameCodec.cc:19-54 | Reading on after a prefix gives what reading the whole stream gives; an oversized header is final |
| `FrameCodec.NetworkOrder` | client/src/adapters/connection_gateway/TcpFrameCodec.cc:8-17 | Words are in network byte order: a byte is the last of four, and one more factor of 256 moves every byte one place to the front |
| `FrameCodec.FeedingParses` | client/src/adapters/connection_gateway/TcpFrameCodec.cc:19-54 | Over any pieces the error flag is that of the whole stream; without an oversized header so are frames and leftover; with one the frames are those of the pieces before it |
| `FrameCodec.ChunkingIrrelevant` | client/src/adapters/connection_gateway/TcpFrameCodec.cc:19-54 | Two cuttings of one stream agree on the error flag, and on everything when it is clear |
| `FrameCodec.EncodedStreamParses` | client/src/adapters/connection_gateway/TcpFrameCodec.cc:8-17 | Concatenated encodings of frames up to 10 MiB parse to exactly those frames, whatever follows |
| `FrameCodec.DecodesWhatWasEncoded` | client/src/adapters/connection_gateway/TcpFrameCodec.cc:8-54 | Any cutting of concatenated encodings decodes to exactly the frames with nothing left over |
| `FrameCodec.CuttingMattersOnError` | client/src/adapters/connection_gateway/TcpFrameCodec.cc:36-40 | Frames in front of an oversized header are returned or dropped depending on the cutting |
| `FrameCodec.TcpFrameCodec.Feed` | client/src/adapters/connection_gateway/TcpFrameCodec.cc:19-54 | The in-place loop is one specified feed |
| `FrameCodec.EncodeFrame` | server/gateway/src/GatewaySession.cc:46-57 | The gateway's buffer holds the bytes the client's encoder makes |
| `FrameCodec.ReadFrames` | server/gateway/src/GatewaySession.cc:140-162 | The gateway's reader handles every frame in front of the first incomplete or oversized one |
| `RequestQueues.RequestsConserved` | client/src/adapters/connection_gateway/ConnectionGatewayClient.cc:272-374 | In every run each request is refused at once or accepted into a queue, and per response type resolved then queued requests are the accepted ones in order: none lost, resolved twice or overtaken |
| `RequestWrites.RequestFates` | client/src/adapters/connection_gateway/ConnectionGatewayClient.cc:272-374 | In every run the requests made are the disjoint union of the waiting, the answered and the failed ones |
| `RequestWrites.HeadOutcome` | client/src/adapters/connection_gateway/ConnectionGatewayClient.cc:320-359 | In every run an answer of some type answers the head of that type, a running timer fails it, and either way the next one moves up |
| `RequestQueues.AnswersNeverCollide` | client/src/adapters/connection_gateway/ClientProtocol.h:88-90 | Request types are odd; the answer's type lies between its request's and the next, so different requests never share a queue and no answer type is a request type |
| `RequestQueues.DisconnectResolvesAll` | client/src/adapters/connection_gateway/ConnectionGatewayClient.cc:61-71 | A disconnect empties every queue, leaves nothing unresolved and answers nobody; it leads to a reconnect exactly when one is wanted and the client is not closing |
| `RequestWrites.OnlyHeadsWritten` | client/src/adapters/connection_gateway/ConnectionGatewayClient.cc:300-314 | In every run no request is written twice and none while another of its type is ahead |
| `RequestTimers.HeadLiveIff` | client/src/adapters/connection_gateway/ConnectionGatewayClient.cc:306-357 | In every run the head of a queue is written and timed exactly when the last head of its type was not taken, by an answer or a timer, while the client was not ready |
| `RequestTimers.ReadyHeadsLive` | client/src/adapters/connection_gateway/ConnectionGatewayClient.cc:306-337 | While ready, the head of every queue is written and timed, in every run without a login answer that arrives while closing after such a take |
| `RequestTimers.BadLoginBreaks` | client/src/adapters/connection_gateway/ConnectionGatewayClient.cc:454-457 | Every such login answer makes the client ready with a head that is neither written nor timed |
| `RequestTimers.BadLoginStrands` | client/src/adapters/connection_gateway/ConnectionGatewayClient.cc:454-457 | A run that has one; it needs a second login answer on one connection |
| `ConnectionGatewayClient.ConnectionGatewayClient.QueueRequest` | client/src/adapters/connection_gateway/ConnectionGatewayClient.cc:272-304 | Issuing a request is the specified step: refused unless ready and serializable, written when first of its type |
| `ConnectionGatewayClient.ConnectionGatewayClient.CompleteFront` | client/src/adapters/connection_gateway/ConnectionGatewayClient.cc:339-357 | An answer resolves the head of its type and lets the next go; unmatched it changes nothing |
| `ConnectionGatewayClient.ConnectionGatewayClient.OnTimeout` | client/src/adapters/connection_gateway/ConnectionGatewayClient.cc:320-335 | A timer fails the head of its type and lets the next go |
| `ConnectionGatewayClient.ConnectionGatewayClient.FailAllPending` | client/src/adapters/connection_gateway/ConnectionGatewayClient.cc:359-374 | The nested loops fail every waiting request, queue by queue in queue order, and stop the timers |
| `ConnectionGatewayClient.ConnectionGatewayClient.OnDisconnected` | client/src/adapters/connection_gateway/ConnectionGatewayClient.cc:61-71 | A disconnect is the specified step and decides between reconnecting and staying down |
| `ClientStore.BatchKeepsInv` | client/src/adapters/sqlite/SqliteClientRepository.cc:469-483 | A batch of server records keeps the uniqueness rules and the outbox exact |
| `ClientStore.AcceptKeepsInv` | client/src/adapters/sqlite/SqliteClientRepository.cc:264-312 | An acceptance keeps the uniqueness rules and the outbox exact |
| `ClientStore.UpdateKeepsInv` | client/src/adapters/sqlite/SqliteClientRepository.cc:225-262 | A state update that does not unsettle a message keeps the outbox exact |
| `ClientStore.EnqueueKeepsInv` | client/src/adapters/sqlite/SqliteClientRepository.cc:184-223 | Queueing a composed message keeps the uniqueness rules and the outbox exact |
| `ClientStore.BatchCovers` | client/src/adapters/sqlite/SqliteClientRepository.cc:795-825 | A batch touches no row that is there, adds only its own records, and leaves every record stored or in conflict with a stored row under one of the three rules |
| `ClientStore.BatchIdempotent` | client/src/adapters/sqlite/SqliteClientRepository.cc:469-500 | A batch applied twice is the batch applied once, conflicts inside it included |
| `ClientStore.BatchAgainLater` | client/src/adapters/sqlite/SqliteClientRepository.cc:469-483 | Applied again at any later point that kept the keys, a batch adds nothing |
| `ClientStore.CursorNeverBackIff` | client/src/adapters/sqlite/SqliteClientRepository.cc:484-492 | A batch moves a cursor back exactly when there was none and the new one is negative; otherwise it takes the larger value |
| `ClientStore.AcceptCursorBackIff` | client/src/adapters/sqlite/SqliteClientRepository.cc:284-297 | A stored acceptance moves a cursor back exactly when there was none and the number is negative; otherwise it takes the larger value |
| `ClientStore.AcceptBlockedIff` | client/src/adapters/sqlite/SqliteClientRepository.cc:264-283 | An acceptance fails exactly when another row already has its server id or its place in the conversation, and then changes nothing |
| `SqliteClientRepository.SqliteClientRepository.InsertMessage` | client/src/adapters/sqlite/SqliteClientRepository.cc:795-825 | Insert with and without ignoring duplicates |
| `SqliteClientRepository.SqliteClientRepository.EnqueueOutgoing` | client/src/adapters/sqlite/SqliteClientRepository.cc:184-223 | The transaction commits both rows or, at a failure of any statement, none |
| `SqliteClientRepository.SqliteClientRepository.UpdateDeliveryState` | client/src/adapters/sqlite/SqliteClientRepository.cc:225-262 | State and outbox change together or not at all |
| `SqliteClientRepository.SqliteClientRepository.AcceptOutgoing` | client/src/adapters/sqlite/SqliteClientRepository.cc:264-312 | Row, cursor and outbox change together or not at all |
| `SqliteClientRepository.SqliteClientRepository.ApplyIncomingBatch` | client/src/adapters/sqlite/SqliteClientRepository.cc:469-500 | The loop applies the whole batch; a failure at any record or at the commit leaves the database as it was |
| `ClientOutbox.OutboxEquivalence` | client/src/app/AppController.cc:893-939 | In every run of sends, answers, failures, retries, incoming messages, failed writes and restarts the database has an outbox row for exactly the outgoing unsettled messages |
| `ClientOutbox.SettledForever` | client/src/models/MessageListModel.cc:75-113 | In the database no message is lost or rewritten and a settled one never becomes unsettled |
| `ClientOutbox.OneMessagePerId` | client/src/app/AppController.cc:303-375 | A client message id names one text to one recipient in all its sends, across restarts |
| `ClientOutbox.CursorForward` | client/src/app/AppController.cc:1043-1048 | Once a conversation has a cursor, no batch, answer, failed write or restart of any run moves it back |
| `ClientOutbox.CursorBackIff` | client/src/adapters/sqlite/SqliteClientRepository.cc:502-512 | The cursor a sync starts from goes back at a step exactly when the server sends a conversation its first cursor and it is negative |
| `ClientOutbox.RestartShowsOutbox` | client/src/app/AppController.cc:1437-1446 | A restarted client shows as unsettled exactly the messages with an outbox row |
| `ClientOutbox.OutboxIsResent` | client/src/app/AppController.cc:1271-1311 | After a restart at any point of any run, every message with an outbox row and a recipient is sent again with its stored text |
| `ClientOutbox.ReplySettlesIff` | client/src/app/AppController.cc:914-938 | A success answer settles its message in the database exactly when no other row has the server id or place; otherwise the database stays as it was |
| `OutboxOutcomes.ComposeOutcome` | client/src/app/AppController.cc:303-375 | In every run a message composed while writes succeed is stored under an unused id with its text and shown as local, failed, unconfirmed or waiting, by network, recipient and readiness; it is sent exactly in the last case and owed unless there is nobody to send it to |
| `OutboxOutcomes.RefusedComposeGoesNowhere` | client/src/app/AppController.cc:323-327 | A message the database refuses is shown as failed for good and nothing is sent |
| `OutboxOutcomes.TransitionsByTarget` | client/src/models/MessageListModel.cc:75-113 | The table of states, read by target: which states may lead to each |
| `OutboxOutcomes.RejectionOutcome` | client/src/app/AppController.cc:892-907 | In every run, while writes succeed, a refused message that was waiting stays owed, to be tried again, exactly when the refusal is retryable; otherwise it has failed for good |
| `OutboxOutcomes.FailureOutcome` | client/src/app/AppController.cc:1235-1248 | In every run, while writes succeed, a failed request leaves its waiting message unknown, to be tried again, or failed for good, by the kind of failure; it is stored as shown and owed exactly in the first two cases |
| `OutboxOutcomes.RetrySendsIff` | client/src/app/AppController.cc:377-439 | A manual retry sends the message's own text exactly when it failed retryably, the client is ready and there is a recipient; offline it becomes local again |
| `OutboxOutcomes.LifecycleMovesForward` | client/src/app/AppController.cc:1477-1510 | The scheduled changes take an accepted message to delivered and to read, and never back from read |
| `ClientStore.OfferStoresIff` | client/src/adapters/sqlite/SqliteClientRepository.cc:795-825 | A record is inserted exactly when its client id, its server id and its place in the conversation are all free, and changes no other row |
| `ClientOutbox.SyncedCopyBlocksAcceptance` | client/src/app/AppController.cc:1018-1036 | A run, for any text and server id, in which the answer is lost, sync brings the message back and the resend is answered: shown as accepted, in the database still waiting in the outbox |
| `ClientOutbox.CopyBlocksForever` | client/src/adapters/sqlite/SqliteClientRepository.cc:264-283 | Once a row under a server id is stored, then for the rest of every run no answer carrying that id can be stored for a composed message: the database stays as it is |
| `AppController.AppController.NextFreeId` | client/src/app/AppController.cc:1437-1446 | The loop finds the first client id below every stored one and not above -1000 |
| `AppController.AppController.LoadScenario` | client/src/app/AppController.cc:1437-1446 | A restart is the specified step |
| `AppController.AppController.UpdateMessageState` | client/src/app/AppController.cc:1497-1520 | Shown and stored state change as specified, only along allowed transitions |
| `AppController.AppController.SendMessage` | client/src/app/AppController.cc:303-375 | Composing is the specified step with all its branches |
| `AppController.AppController.RetryMessage` | client/src/app/AppController.cc:377-439 | A manual retry is the specified step |
| `AppController.AppController.OnAccepted` | client/src/app/AppController.cc:896-938 | A success answer is the specified step |
| `AppController.AppController.OnRejected` | client/src/app/AppController.cc:896-912 | An error answer is the specified step |
| `AppController.AppController.HandleGatewayFailure` | client/src/app/AppController.cc:1235-1248 | A failed request is the specified step |
| `AppController.AppController.ResumePendingOutgoing` | client/src/app/AppController.cc:1271-1311 | After a login exactly the unsettled messages with a recipient are sent again, each once and with its own text |
| `EndToEnd.WireIdInjective` | client/src/app/AppController.cc:359-360 | Different composed messages of one user have different ids on the wire |
| `EndToEnd.ComposedMessageConflictsIff` | client/src/app/AppController.cc:303-375 | Whatever the network loses, repeats or reorders and however clients fail and restart, a composed message is refused as a conflict exactly when it is in the log already and its users have come to share another conversation |
| `EndToEnd.NoComposedMessageConflicts` | client/src/app/AppController.cc:303-375 | While friendships last no composed message of any run is refused as a conflict |
| `EndToEnd.RowsAreComposedMessages` | server/public/include/Mysql.h:610-736 | Every row of the log is a composed message of its sender, with its text, to the user or group it was composed for, and no other row has its key |
| `EndToEnd.SecondInstallationIsRefusedIff` | client/src/app/AppController.cc:1437-1446 | Two installations of one account send their first messages under one id: the first is delivered, the second is refused as a conflict exactly when friend or text differ, and otherwise answered as a repeat and never delivered |
| `EndToEnd.SecondUnderSameKey` | server/public/include/Mysql.h:664-689 | In any state, a command under the key of a stored one is taken for a repeat exactly when conversation, target and text agree, and refused as a conflict otherwise |

## Left out

- Sockets, gRPC and asio, protobuf packets, the SQL, Lua and Redis engines, logging, configuration, mail, HTTP, files and
  the user interface: each transaction, script or callback is represented by its effect.
- Database isolation: the accept and receipt transactions are taken as serial, as their row locks intend, and the
  schema is the one in scripts/sql/init_message_mysql_test.sql. Collation of the client id column is not modelled.
- The columns commandHash and sessionKey, which nothing reads, and rows without a conversation that older versions wrote.
- Leaving a conversation: nothing in the code writes leftSeq, so the invariant has it empty and no event sets it.
- The text form in which Lua compares generations; the clock of a lease is one of whole seconds.
- Friend and group administration beyond the rows the accept transactions read; older pulls; contacts and request lists;
  topology changes and reconnect timing.
- Counts of commands in flight: they are an arbitrary hint to the link selection. Removing an entry and running its
  callback are one step, and the callback does not call back into the manager.
- Retransmission of pushes until a transport acknowledgement: each one is another SendRaw.
- Signal handlers that issue requests while an answer is being handled, and matching a late answer to the request it
  was for: answers carry only their type.
- Client-side gap freedom: a push or an acceptance moves the cursor straight to its own number, so only monotone
  cursors are claimed.
- Parsing of conversation names into user and group ids, which uses the size of a pointer: conversations are values.
- The list model that repeats a conversation's messages for the view; it follows the same table of transitions.
- Incoming messages as the running client shows them, drafts, previews and unread counts; foreign-key failures count
  among the arbitrary write failures, and a failed commit is a rollback.
- EndToEnd.NoComposedMessageConflicts: takes the sender of a command to be the authenticated user, as the gateway sets it.
- EndToEnd.ComposedMessageConflictsIff: takes the sender of a command to be the authenticated user, as the gateway sets it.
- EndToEnd.RowsAreComposedMessages: takes the sender of a command to be the authenticated user, as the gateway sets it.
- RetrySafety.RepeatedPullExtends: covers the conversation pull; the friend, request and older message pulls only read lists that are not modelled.
- MessageLinkManager.MessageLinkManager.Forward: runs without interruption; interleavings are covered by the steps it is proved equal to.
- MessageLinkManager.MessageLinkManager.RetryPending: runs without interruption; interleavings are covered by the steps it is proved equal to.
- SessionWriter.GatewaySession.WriteLoop: runs without interruption; interleavings are covered by the steps it is proved equal to.
