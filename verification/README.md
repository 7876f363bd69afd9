# Money movement, verified

A Dafny model of a peer-to-peer wallet API: users hold wallets, send money to each other, ask each
other for money and pay such requests, under idempotency keys and rolling send limits. Domain events
go through an outbox to a worker that turns them into notifications. Lists are paged by keyset cursors.
`dafny verify dfyconfig.toml` checks the whole project.

## What is modelled, and how the parts fit

**The atomic specification** (`Ids`, `Tables`, `Limits`, `Operations`, `History`, `SelfTransfers`, `Decisions`,
`Terms`). `Operations.Handle` says
what each of the five calls (transfer, create, accept, decline, cancel) does when it runs alone: the
checks in the order of the code, the whole effect, the stored response. The actor of a call comes from
the session; every other id is text as the client typed it, which the self checks and the request hash
read as text and the database reads as a value. `History.Replay` runs a list of
calls and registrations one after the other. `Decisions` says in terms of the rows alone when each call
succeeds and when it is refused with which error; `Terms` says that what was asked for is what is stored,
answered and kept.

**The interleaved system** (`Protocol`, `ProtocolInvariant`, `ProtocolStatements`,
`ProtocolTheorems`, `ProtocolProgress`, `ProtocolResults`). Any number of calls, each a database
transaction with a program counter, locals, staged rows and row locks, advance one statement at a time
in any order. Transactions may abort, be retried, or lose the reply to their commit. Statements read the
latest committed rows (the code passes no isolation level, so PostgreSQL's default READ COMMITTED);
locks last until the transaction ends; an insert under a uniqueness constraint waits for the transaction
that holds the same key uncommitted. The main theorem, `ProtocolResults.Linearizable`, is a refinement:
the committed tables and every answer are those of the atomic calls, one at a time, in the order in
which they were answered. Everything proved of histories then holds of every run: `Accounts`,
`Settlements`, `Answers`.

**The services as written** (`Repositories`, `Services`). The same code again as imperative methods over
a transaction object, statement after statement, with the claim loop of the idempotency service and the
retry loops; each is proved against `Handle`. A constraint of the schema that no caller can violate is a
precondition of its repository method, so it is proved never to trip: the non-negative balance, the sign
of a ledger entry, a positive transfer amount, fresh ids, one assessment per transfer. The CHECKs that
can trip, distinct parties on both tables and a positive request amount, are answered by the method, and
`SelfTransfers` says for every input when they do.

**The outbox** (`OutboxWorkers`, `OutboxProcessor`, `Notifications`, `ArrivalNotices`, `RequestNotices`,
`EndToEnd`). A machine with
N workers that claim with SKIP LOCKED, crash, fail, and charge failures on another connection; the
one-worker drain loop as imperative code, proved to be a run of that machine; the consumer; and the
chain from committed transfers and requests to their notices. `EndToEnd` runs the API and the workers
together: every commit publishes its events, and what is proved of notices holds of every joint run.

**Pure algorithms** (`Keyset`, `Cursor`, `Activity`, `Canonical`, `PayloadTexts`, `Money`). The page
walk, the cursor text, the canonical request text, and money as text.

Instants are integers: milliseconds in the tables, seconds in the outbox. Generated ids are drawn from a
serial number that no other attempt draws from. The request hash is modelled by the payload itself;
`PayloadTexts.PayloadTextsAreInjective` is what justifies it.

## Findings

- A user who types the own id in another letter case passes the self check of a transfer, which compares
  texts, while both wallet probes find the one wallet by value. If every other check passes, the insert
  violates `transfers_distinct_parties` and the call ends in an internal error instead of an invalid
  transfer; nothing is committed. `SelfTransfers.TransferTripsExactly` gives the exact condition and
  `SelfTransfers.SomeTransferTrips` a reachable case. Creating a request to oneself fails the same way on
  `money_requests_distinct_parties` (`SelfTransfers.CreateTripsExactly`); accepting, declining and
  cancelling never do (`SelfTransfers.ResolvingNeverTrips`).
- The request hash is taken of ids as typed: a retry under the same key that spells an id in another
  letter case is refused as key reuse (`Answers.RespelledRetryIsRefused`).
- The idempotency service expects that a call which lost the race for a key may find the record gone
  or half done. Under PostgreSQL the INSERT itself waits for the other transaction, and no committed
  record is ever PROCESSING, so neither the claim loop's second pass nor the take-over branch is reachable
  (`ProtocolResults.NoTakeOver`). The comment that places the wait in the SELECT ... FOR UPDATE is
  inaccurate; the behaviour is as promised.
- MAX_ATTEMPTS bounds the attempts of an event exactly when there is one worker
  (`OutboxWorkers.AttemptLimitNeedsOneWorker`). With N workers the bound is MAX_ATTEMPTS + N - 1, and it
  is reached, because a failure is charged after the row lock is gone. For the same reason the backoff
  spaces the attempts exactly when there is one worker (`OutboxWorkers.SpacingNeedsOneWorker`).
- After a failure that could not be recorded, the drain attempts an event of the same instant next, which
  is the same event unless another due one occurred at that instant (`OutboxProcessor.LostRecordRepeats`).
- The window limits survive every new row exactly when the row's created_at is not before the clock reading
  of its own check (`Limits.WindowsNeedTheClockToRun`).
- A request that reads as EXPIRED can still be declined or cancelled: EXPIRED is not terminal
  (`Answers.WhoMayResolve`).
- The amount parser ignores white space around the text and, with one exception, commas anywhere: a comma
  between the amount and white space around it (", 250" or "250 ,") keeps that space from being trimmed, and
  the text is refused as not valid (`Money.CommasAreIgnored`).
- The amount parser promises that no floating-point rounding enters the money path. It does compute in
  doubles; `Money.RoundingIsHarmless` shows that rounding never turns a text into a wrong amount.

## Model

| member | source | states |
|---|---|---|
| ProtocolResults.Linearizable | apps/api/src/transfers/transfer.service.ts:158-354 | refinement: after any interleaving of any number of calls the committed tables and all answers are those of atomic calls in the order of the answers, and each call is logged at most once with the answer it got |
| ProtocolTheorems.RunKeepsInv | apps/api/src/transfers/transfers.repository.ts:108-127 | in every reachable state each open transaction holds exactly its locks, has staged exactly its writes, and its reads and checks still hold of the committed rows; no lock has two holders |
| ProtocolTheorems.NextKeepsInv | apps/api/src/transfers/transfer.service.ts:98-132 | every single step of every call, and every abort, retry and lost reply, keeps that invariant |
| ProtocolInvariant.FrameKeepsLocal | apps/api/src/transfers/transfer.service.ts:241-265 | whatever another transaction commits under locks of its own, this one's view and its passed checks survive, the limit check included |
| ProtocolStatements.CommitIsHandle | apps/api/src/transfers/transfer.service.ts:267-354 | what a commit publishes is the atomic operation applied to the tables as they are at that moment |
| ProtocolStatements.RefusalIsHandle | apps/api/src/transfers/transfer.service.ts:422-474 | a statement that refuses or replays gives the atomic operation's answer, which changes nothing |
| ProtocolStatements.UpdatesStartFromLockedRows | apps/api/src/transfers/transfers.repository.ts:169-179 | the two relative balance updates start from the very balances that were read under the locks |
| ProtocolTheorems.CommitFrames | apps/api/src/transfers/transfers.repository.ts:108-127 | a commit changes only rows that its transaction has locked or whose ids it generated |
| ProtocolTheorems.StatementLocks | apps/api/src/transfers/transfer.service.ts:241-249 | a statement gains no lock but the one it waited for |
| ProtocolProgress.WantsHigherRank | apps/api/src/transfers/transfer.service.ts:241-247 | locks are taken in rank order: the key, then the request row, then wallets by ascending id; only a transfer to oneself asks again for the wallet it holds |
| ProtocolResults.NeverStuck | apps/api/src/money-requests/money-request.service.ts:185-225 | no deadlock: in every reachable state with an unfinished call some call's next statement can execute |
| ProtocolResults.EveryRunEnds | apps/api/src/transfers/transfer.service.ts:103-131 | a run with n calls and r registrations has at most 121 n + r steps, whatever aborts and retries occur |
| ProtocolProgress.ActionSpends | apps/api/src/money-requests/money-request.service.ts:148-167 | every step of a call spends some of a bounded budget |
| ProtocolResults.CommittedStatesAreSound | apps/api/src/transfers/transfer.service.ts:262-334 | in every reachable committed state: balances non-negative and explained by the ledger, money conserved, nothing half done, records exactly those of the successful answers |
| ProtocolResults.LimitsHoldOverRuns | apps/api/src/limits/transaction-limit.service.ts:39-60 | in every reachable state every sender is within every limit in every window at every instant |
| ProtocolResults.SameKeySameResponse | apps/api/src/idempotency/idempotency.service.ts:67-132 | over every run, all successful calls with one key are one and the same request and return one response |
| ProtocolResults.NoTakeOver | apps/api/src/idempotency/idempotency.service.ts:75-111 | a call that finds its key taken is answered at its first look: replay or key reuse, no second claim, no take-over |
| ProtocolResults.ResolvedByOneCall | apps/api/src/money-requests/money-request.service.ts:200-236 | over every run, a resolved request was pending until one permitted transition by the right party, an acceptance strictly before its deadline; nothing else ever changed it |
| ProtocolResults.ResolvedOnceForAll | apps/api/src/money-requests/money-request.service.ts:272-333 | once resolved, the stored row is the same in every later state of every continuation |
| ProtocolResults.NoRequestPaysTwice | apps/api/src/money-requests/money-request.service.ts:190-236 | over every run two settlements of one request are one transfer |
| Accounts.LedgerAgreesWithBalances | apps/api/src/transfers/transfer.service.ts:279-302 | each balance is its seed plus its signed ledger amounts, and in append order each balanceAfter is the running balance |
| Accounts.MoneyIsConserved | apps/api/src/transfers/transfer.service.ts:279-302 | the total of all balances is the total of the registration seeds |
| Accounts.HandleConserves | apps/api/src/transfers/transfers.repository.ts:169-179 | no call creates or destroys money |
| Accounts.NoBalanceExceedsTheSeeds | database/prisma/migrations/20260829120000_add_users_wallets_auth_sessions/migration.sql:25-35 | every balance lies between zero and the total of all seeds, so none overflows its column unless the seeds do |
| Settlements.NothingIsHalfDone | apps/api/src/transfers/transfer.service.ts:265-334 | in every state of every history each transfer is SUCCEEDED with one debit, one credit, one score and one transfer.succeeded event; requests and their transfers correspond; each row passed its limit check |
| Settlements.SettledOnce | database/prisma/migrations/20260901090000_add_money_requests/migration.sql:24-36 | no request is settled by two transfers |
| Settlements.LimitsHoldInEveryWindow | apps/api/src/limits/transaction-limit.service.ts:73-102 | in every history every window of every sender obeys its limit |
| Settlements.HandleKeepsWhole | apps/api/src/money-requests/money-request.service.ts:213-236 | every answered call keeps all of that |
| Answers.OneEffectPerKey | apps/api/src/idempotency/idempotency.service.ts:67-113 | after a success with a key no later call with it changes anything; an equal payload gets the first answer, a different one is refused |
| Answers.RecordsAreAnswers | apps/api/src/idempotency/idempotency.service.ts:121-132 | a record exists exactly for the keys with a successful answer, and stores that answer |
| Answers.PayloadIsTheWholeRequest | apps/api/src/money-requests/money-request.service.ts:350-358 | the hashed payload misses nothing: under one key, payloads are equal exactly when the requests are, ids taken as typed |
| Answers.RespelledRetryIsRefused | apps/api/src/transfers/transfer.service.ts:413-420 | after a success, a retry that spells the receiver's id in another way is refused as key reuse |
| Answers.AnswerDescribesTheRows | apps/api/src/money-requests/money-request.mapper.ts:22-36 | the answer of an effective call describes the rows it wrote: the appended transfer, the sender's new balance and the score, or the stored request with its derived status |
| Answers.RefusalLeavesNoTrace | apps/api/src/idempotency/idempotency.service.ts:101-105 | a refused call leaves nothing behind, so its key is not used up |
| Answers.RequestsStep | apps/api/src/money-requests/money-request.service.ts:289-300 | each call changes a stored request only by a permitted transition, and new requests start PENDING |
| Answers.TerminalIsForever | apps/api/src/money-requests/money-requests.repository.ts:75-96 | a request never leaves a terminal status |
| Answers.LifeOfARequest | apps/api/src/money-requests/money-request.service.ts:200-211 | a resolved request has exactly one entry that resolved it |
| Answers.WhoMayResolve | apps/api/src/money-requests/money-request.service.ts:365-384 | exactly who may accept, decline or cancel, in terms of the derived status; only accepting looks at the deadline |
| History.HandleShape | apps/api/src/transfers/transfer.service.ts:205-265 | a call either changes nothing or has passed every check and has its whole effect and record |
| Decisions.TransferDecides | apps/api/src/transfers/transfer.service.ts:205-265 | a fresh transfer between two users succeeds exactly when both have wallets, both owners and both wallets are active, the amount is positive and covered, and one, seven and thirty days admit it; and each error is answered exactly under its own condition |
| Decisions.SettleDecides | apps/api/src/transfers/transfer.service.ts:422-474 | the same for the settlement, which a transfer and an acceptance share |
| Decisions.AcceptDecides | apps/api/src/money-requests/money-request.service.ts:185-225 | a fresh acceptance succeeds exactly when the payer accepts an open request before its deadline and may send its amount to the requester; each error exactly under its own condition |
| Decisions.ResolveDecides | apps/api/src/money-requests/money-request.service.ts:272-300 | declining and cancelling succeed exactly for the right party of a pending request, whatever its deadline; each error exactly under its own condition |
| Decisions.CreateDecides | apps/api/src/money-requests/money-request.service.ts:103-116 | creating succeeds exactly when the payer is an active other user and the amount positive; each error exactly under its own condition |
| Decisions.PrecheckDecides | apps/api/src/money-requests/money-request.service.ts:74-87 | what is refused before any transaction: ids that are no UUIDs, oneself as payer, a deadline that is not in the future |
| Decisions.OnlyActivePartiesMoveMoney | apps/api/src/transfers/transfer.service.ts:422-454 | over every run of the interleaved system both wallets of every committed transfer are active, and so are both owners |
| Terms.TransferIsAsAsked | apps/api/src/transfers/transfer.service.ts:265-275 | a new transfer, and its receipt, has the parties, the amount and the note of the call, or of the request that it settles |
| Terms.RequestIsAsAsked | apps/api/src/money-requests/money-request.service.ts:109-116 | a successful creation stores, and answers, a pending request with the requester, payer, amount, note and deadline of the call |
| Terms.EveryRequestIsAsAsked | apps/api/src/money-requests/money-request.service.ts:109-116 | in every history every answered creation, replays included, names a stored request with the terms of its own call |
| Terms.TermsAreForLife | apps/api/src/money-requests/money-requests.repository.ts:75-96 | no later call changes parties, amount, note or deadline of a stored request |
| Terms.LateAcceptanceNeverPays | apps/api/src/money-requests/money-request.service.ts:203-216 | the acceptance that paid a request is by the payer whom its creation named, and its clock stands before the deadline that the creation asked for |
| Terms.RequestsAreKeptAsAsked | apps/api/src/money-requests/money-request.service.ts:185-225 | the last three over every run of the interleaved system |
| Terms.StoredStatuses | apps/api/src/transfers/transfer.service.ts:187-195 | the stored response of a creation is a 201, every other one a 200 |
| Terms.RiskIsRecordedAndFlagged | apps/api/src/transfers/transfer.service.ts:363-410 | every settlement records the level that the rules gave; HIGH has exactly one event of its own, no other level has any |
| Services.SettleTransfer | apps/api/src/transfers/transfer.service.ts:205-354 | the statements of settle, run in order, are the atomic settlement, which Decisions.SettleDecides and Terms.TransferIsAsAsked describe; a refusal writes nothing |
| SelfTransfers.TransferTripsExactly | apps/api/src/transfers/transfer.service.ts:210-218 | a transfer violates the distinct-parties CHECK exactly when its receiver is the actor's id up to letter case but not as printed, its key is fresh, and every other check passes |
| SelfTransfers.SettleTripsExactly | apps/api/src/transfers/transfers.repository.ts:83-96 | the same for the settlement: one user by value, another text, and everything else in order |
| SelfTransfers.CreateTripsExactly | apps/api/src/money-requests/money-request.service.ts:73-118 | creating a request violates a CHECK exactly when the active payer is the actor up to letter case, or the amount is not positive |
| SelfTransfers.ResolvingNeverTrips | apps/api/src/money-requests/money-request.service.ts:213-225 | accepting, declining and cancelling never violate a CHECK, in any history |
| SelfTransfers.OwnIdInUpperCaseTrips | apps/api/src/transfers/dto/create-transfer.schema.ts:10-13 | every user who can spend and whose id has a letter violates it by typing that id in upper case |
| SelfTransfers.SomeTransferTrips | apps/api/src/transfers/dto/create-transfer.schema.ts:10-13 | a reachable state and a call that does |
| SelfTransfers.PrintedOwnIdIsRefused | apps/api/src/transfers/transfer.service.ts:212-218 | the own id as printed is refused as an invalid transfer |
| Ids.SpellingsOfOneId | apps/api/src/money-requests/dto/create-money-request.schema.ts:9-12 | two UUID texts stand for one id exactly when they differ at most in letter case |
| Ids.OtherSpellingsExist | apps/api/src/transfers/dto/create-transfer.schema.ts:10-13 | an id has another spelling than the printed one exactly when that has a letter |
| Services.CheckSettlement | apps/api/src/transfers/transfer.service.ts:210-265 | the checks in code order, self check by text, probes by value, whichever wallet was locked first, admit and refuse exactly what Decisions.SettleDecides says |
| Services.WriteMovement | apps/api/src/transfers/transfer.service.ts:267-305 | pending row, ledger pair, two relative updates and the status flip make up the movement; when sender and receiver are one user the CHECK refuses the row and nothing is written |
| Services.WriteFollowUps | apps/api/src/transfers/transfer.service.ts:307-334 | the assessment row, an event of its own for HIGH only, then transfer.succeeded |
| Services.RunTransfer | apps/api/src/transfers/transfer.service.ts:158-198 | a direct transfer's transaction honours the atomic call, for every number of lost claims |
| Services.RunAccept | apps/api/src/money-requests/money-request.service.ts:185-270 | so does accepting |
| Services.RunResolve | apps/api/src/money-requests/money-request.service.ts:272-333 | so do declining and cancelling |
| Services.RunCreate | apps/api/src/money-requests/money-request.service.ts:73-146 | so does creating, with the payer compared as text and inserted as a value, and every field of the row that of the command (Terms.RequestIsAsAsked) |
| Services.LockAndCheckRequest | apps/api/src/money-requests/money-request.service.ts:203-211 | role, status and deadline are checked on the locked row, in this order |
| Services.Begin | apps/api/src/idempotency/idempotency.service.ts:67-113 | the claim loop claims, replays, refuses or takes over as specified, gives up exactly after three lost claims, and writes only on a claim |
| Services.Call | apps/api/src/transfers/transfer.service.ts:98-132 | a call behaves as its decisive attempt alone; the attempts before it leave no trace |
| Services.AtMostThreeAttempts | apps/api/src/transfers/transfer.service.ts:103-131 | a transfer or an acceptance goes on past write conflicts to a third attempt at most; any other call is decided by its first |
| Repositories.MarkSucceeded | apps/api/src/transfers/transfers.repository.ts:181-186 | flips the one row with that id |
| Repositories.ApplyBalanceDelta | apps/api/src/transfers/transfers.repository.ts:169-179 | moves one balance by the delta; the non-negative CHECK is a precondition every caller meets |
| Repositories.InsertLedgerEntry | database/prisma/migrations/20260831090000_add_transfers_ledger_idempotency_outbox/migration.sql:52-59 | appends; the sign CHECK is a precondition every caller meets |
| Repositories.InsertPendingTransfer | database/prisma/migrations/20260831090000_add_transfers_ledger_idempotency_outbox/migration.sql:33-37 | appends exactly when the parties are distinct users; amount and fresh id are preconditions every caller meets |
| Repositories.InsertRequest | database/prisma/migrations/20260901090000_add_money_requests/migration.sql:23-26 | inserts exactly when the amount is positive and the parties are distinct users |
| Repositories.MarkAccepted | apps/api/src/money-requests/money-requests.repository.ts:75-84 | sets status and transfer link of one row |
| Repositories.MarkResolved | apps/api/src/money-requests/money-requests.repository.ts:87-96 | sets the status of one row |
| Limits.EveryWindowObeysItsLimit | apps/api/src/limits/transaction-limit.service.ts:73-102 | if every row passed its check at its own created_at, every closed window ending at any instant is within its limit, for any order of timestamps |
| Limits.CheckIsExact | apps/api/src/limits/transaction-limit.service.ts:81-102 | the check admits an amount exactly when it stays within the ceiling of every period on top of what was sent since the window's start |
| Limits.OneScanIsThreeSums | apps/api/src/limits/transaction-limit.repository.ts:32-54 | the one scan pre-filtered to the widest window computes the three unfiltered sums |
| Limits.EachRowCounts | apps/api/src/limits/transaction-limit.repository.ts:32-54 | a row adds its amount to each window whose start is not after its creation, one, seven and thirty days back, exactly when it is the sender's and succeeded |
| Limits.LaterCheckAlsoPasses | apps/api/src/limits/transaction-limit.service.ts:39-60 | a check passed at one instant passes at every later one |
| Limits.WindowsNeedTheClockToRun | apps/api/src/limits/transaction-limit.service.ts:39-60 | for every pair of instants: every row that passes its check leaves every window within its limit exactly when its created_at is not before the instant of the check |
| Limits.EarlierRowBreaksTheWindow | apps/api/src/limits/transaction-limit.service.ts:73-79 | for every created_at before the instant of the check, two rows that both pass and exceed the daily limit |
| OutboxWorkers.NotificationsAreExact | apps/api/src/outbox/outbox.processor.ts:72-120 | with any number of workers, crashes, failures and lost replies, the notifications are exactly the plans of the processed events, each once |
| OutboxWorkers.AttemptBound | apps/api/src/outbox/outbox.repository.ts:73-82 | with N workers an event is charged at most 4 + N times |
| OutboxWorkers.AttemptBoundIsReached | apps/api/src/outbox/outbox.processor.ts:80-102 | for every N a run charges one event 4 + N times |
| OutboxWorkers.NextKeepsAttempts | apps/api/src/outbox/outbox.repository.ts:113-121 | charges made plus workers holding or owing the event never exceed the bound |
| OutboxWorkers.ClaimsTakeTheOldestWaiting | apps/api/src/outbox/outbox.repository.ts:69-96 | an idle worker may claim exactly an event that is unprocessed, charged at most four times, due and held by nobody, and as old as any other such |
| OutboxWorkers.ChargesBackOff | apps/api/src/outbox/outbox.processor.ts:122-138 | in every run of any number of workers a charge whose claim read the count 0, 1, 2, 3 or 4 adds one to the count and makes the event due exactly 2, 4, 8, 16 or 32 seconds later |
| OutboxWorkers.ProcessedIsNeverClaimed | apps/api/src/outbox/outbox.repository.ts:69-104 | a processed event stays processed and is never claimed again, even if a late failure record lands on it |
| OutboxWorkers.BackoffSpacing | apps/api/src/outbox/outbox.processor.ts:122-138 | with one worker the k-th charge comes at least 2^k - 2 seconds after the first claim, so no dead letter in under 30 seconds |
| OutboxWorkers.SpacingIsTight | apps/api/src/outbox/outbox.processor.ts:122-138 | that bound is reached: for each k a one-worker run makes its k-th charge exactly 0, 2, 6, 14 or 30 seconds after the first claim |
| OutboxWorkers.SpacingNeedsOneWorker | apps/api/src/outbox/outbox.processor.ts:122-138 | the backoff spaces the attempts in every run exactly when there is one worker |
| OutboxWorkers.ManyWorkersBreakTheSpacing | apps/api/src/outbox/outbox.processor.ts:80-102 | for every N of at least two, a run with N charges within the second of the first claim |
| OutboxWorkers.AttemptLimitNeedsOneWorker | apps/api/src/outbox/outbox.processor.ts:9-13 | MAX_ATTEMPTS bounds the attempts in every run exactly when there is one worker |
| OutboxProcessor.Processor.Drain | apps/api/src/outbox/outbox.processor.ts:56-70 | for every way the single attempts may go: due events are attempted in order of occurrence, none again unless its failure went unrecorded, and the drain ends early only when all have been settled; while failures get recorded these are exactly the first min(batch, due) events, none twice; answers how many were delivered; every drain is a run of the worker machine |
| OutboxProcessor.Processor.ProcessNext | apps/api/src/outbox/outbox.processor.ts:72-116 | one attempt on the oldest due event, a run of the worker machine; a failing consumer's inserts are rolled back |
| OutboxProcessor.OutboxTable.ClaimNext | apps/api/src/outbox/outbox.repository.ts:69-96 | the oldest due event, or none exactly when nothing is due |
| OutboxProcessor.OutboxTable.MarkProcessed | apps/api/src/outbox/outbox.repository.ts:99-104 | sets the processed flag of one row |
| OutboxProcessor.OutboxTable.RecordFailure | apps/api/src/outbox/outbox.repository.ts:113-121 | increments the stored count of one row and makes it due 2^(n+1) seconds from now, n being the count that was read |
| OutboxProcessor.OneMore | apps/api/src/outbox/outbox.repository.ts:73-82 | the next oldest due event extends the drained sequence in order, whatever its attempt comes to |
| OutboxProcessor.HowFar | apps/api/src/outbox/outbox.processor.ts:59-67 | a drain ends early only when it has settled all that was due, and settles one event per attempt while failures get recorded |
| OutboxProcessor.DeliveredAreCounted | apps/api/src/outbox/outbox.processor.ts:56-70 | the answer of a drain is the number of its attempts that delivered |
| OutboxProcessor.LostRecordRepeats | apps/api/src/outbox/outbox.processor.ts:136-145 | in a drain, after an attempt whose failure went unrecorded an event of the same instant is attempted next, and it is the same event unless another due one occurred at that instant |
| RequestNotices.RequestsAreAnnounced | apps/api/src/money-requests/money-request.service.ts:340-348 | in every history each request has exactly one creation event, exactly one resolution event once resolved and none before, and all of them agree with the stored row |
| EndToEnd.EveryCreditIsAnnouncedOnce | apps/api/src/notifications/notification.consumer.ts:70-117 | over every joint run of the API and any number of workers, no transfer is ever announced to its receiver twice, and once the outbox is drained each has been: by money_received if direct, by money_request_accepted if it settled a request |
| EndToEnd.EveryRequestIsAnnouncedOnce | apps/api/src/notifications/notification.consumer.ts:91-103 | over every joint run no request is ever announced twice, and once the outbox is drained each has been, to its payer |
| EndToEnd.EveryResolutionIsReportedOnce | apps/api/src/notifications/notification.consumer.ts:105-150 | over every joint run no resolution is ever reported twice, and once the outbox is drained each has been, to the other party and as what it is |
| EndToEnd.NoticesSayTheirEvents | apps/api/src/notifications/notification.consumer.ts:53-155 | over every joint run each notice says a committed event, and each processed event that is not silent has a notice that says it: user, kind, resource, title and sentence |
| EndToEnd.CreditNoticesNameTheAmount | apps/api/src/notifications/notification.consumer.ts:70-117 | over every joint run the notice of a credit is its sentence around the taka sign and a text that the web page's parser reads back as the amount of the transfer |
| EndToEnd.WorldIsSound | apps/api/src/outbox/outbox.repository.ts:44-54 | in every reachable state the outbox holds exactly the committed events and the notifications are exactly the plans of the processed ones |
| ArrivalNotices.AtMostOneArrivalNotice | apps/api/src/notifications/notification.consumer.ts:70-89 | two arrival notices for one transfer are one notification |
| Notifications.HandledTwiceIsHandledOnce | apps/api/src/notifications/notification.consumer.ts:34-46 | handling an event again inserts nothing |
| Notifications.FreshSourceGetsItsPlan | apps/api/src/notifications/notification.consumer.ts:53-68 | an event with a new id inserts exactly its plan |
| Notifications.PlansSayTheirEvents | apps/api/src/notifications/notification.consumer.ts:53-155 | for all events, the planned notice is exactly the one for its kind: receiver, kind, resource, title, and the sentence around the amount as the web page prints it; settling transfers and risk flags plan none |
| Notifications.FreshEventIsSaid | apps/api/src/notifications/notification.consumer.ts:34-46 | handling an event with a new id appends exactly that notice |
| Notifications.NotificationTable.Handle | apps/api/src/notifications/notification.consumer.ts:34-46 | the loop leaves the table as the plan, an event with a new id appends exactly the notice that says it, and (event, user) stays unique |
| Notifications.NotificationTable.InsertIfAbsent | apps/api/src/notifications/notifications.repository.ts:42-56 | appends exactly when no row has that event and user, and keeps the pair unique |
| Keyset.FixedWalkIsTheList | apps/api/src/activity/activity-query.service.ts:39-61 | over fixed rows and any page size, n requests end the walk exactly when n pages can hold the rows, and then the pages join to the sorted list |
| Keyset.PageCutsTheRest | apps/api/src/activity/activity-query.service.ts:41-59 | a page is the head of what remains; its cursor stands for the tail and is null exactly when nothing remains |
| Keyset.WalkNeverRepeats | apps/api/src/activity/activity.repository.ts:60-102 | whatever changes between the requests, no row comes twice and the items descend |
| Keyset.WalkMissesNothing | apps/api/src/activity/activity.repository.ts:60-102 | when a walk ends, every row that matched at each request has come |
| Keyset.NewestFirstSorts | apps/api/src/activity/activity.repository.ts:100-101 | each row of the query's order is older than the one before |
| Keyset.NewestComesFirst | apps/api/src/activity/activity.repository.ts:100-101 | the order of the query: later created_at first, and the greater id first at one instant |
| Keyset.WalkIsNewestFirst | apps/api/src/activity/activity-query.service.ts:39-61 | under any changes between the requests all items come in that order, and every row of a later page is behind every row of an earlier one |
| Keyset.NewestFirstPermutes | apps/api/src/activity/activity.repository.ts:100-101 | and a permutation of the matching rows |
| Activity.BrowsingGetsTheWholeFeed | apps/api/src/activity/activity-query.service.ts:35-62 | a client that sends back the encoded cursors gets exactly the user's feed, by descending created_at and then id, and never an error |
| Activity.BrowsingUnderInserts | apps/api/src/activity/activity-query.service.ts:35-62 | under concurrent inserts and status changes no item repeats, none that was there at the start is missed, and created_at then id descend within the pages and from page to page |
| Activity.BrowsingGetsTheWholeList | apps/api/src/money-requests/money-request-query.service.ts:58-85 | the same for a money-request list by role and status |
| Activity.BrowseIsTheWalk | apps/api/src/activity/activity-query.service.ts:94-100 | paging by cursor texts is page for page the walk by anchors |
| Activity.OnlyBadCursorsAreRefused | apps/api/src/activity/activity-query.service.ts:94-100 | a list answers with a validation error exactly when its cursor does not decode |
| Activity.FeedIsExactlyMine | apps/api/src/activity/activity.repository.ts:69-99 | the union holds exactly the transfers that the user sends or receives and the requests that the user makes or is asked to pay, of the wanted kind |
| Activity.BothSidesAgree | apps/api/src/activity/activity.repository.ts:73-80 | both parties see the key, the amount, the status and the related request of the one transfer, with opposite directions and each other as counterparty |
| Activity.BothSidesAgreeOnRequests | apps/api/src/activity/activity.repository.ts:86-95 | both parties see the key, the amount, the stored status and the deadline of the one request, and each other as counterparty |
| Activity.RequestListMembers | apps/api/src/money-requests/money-requests.repository.ts:103-125 | the list holds exactly the requests of that participant in that role with that status |
| Cursor.CursorRoundTrip | apps/api/src/common/pagination/cursor.util.ts:25-39 | a cursor that was handed out decodes to its row's instant and id |
| Cursor.AcceptedCursors | apps/api/src/common/pagination/cursor.util.ts:31-39 | exactly the texts that decode to one instant, one bar and one UUID are accepted |
| Cursor.Base64UrlRoundTrip | apps/api/src/common/pagination/cursor.util.ts:25-29 | base64url decodes what it encoded, for every byte string, and is URL-safe |
| Cursor.AlphabetOfRfc4648 | apps/api/src/common/pagination/cursor.util.ts:25-29 | the symbols are those of table 2 of RFC 4648 |
| Cursor.GroupsAreBits | apps/api/src/common/pagination/cursor.util.ts:25-29 | every group of three bytes and the four values it becomes are the same twenty-four bits |
| Ids.UuidRoundTrip | apps/api/src/common/pagination/cursor.util.ts:12-12 | every 128-bit id survives its text, which matches the pattern |
| Ids.UuidPattern | apps/api/src/common/pagination/cursor.util.ts:12-12 | a text is a UUID exactly when it has 36 characters, hyphens at 8, 13, 18 and 23, and hexadecimal digits of either case elsewhere |
| Canonical.CanonicalFormIsInjective | apps/api/src/idempotency/request-hash.util.ts:8-24 | two JSON values have one canonical text exactly when they are equal up to key order |
| Canonical.ValueEnds | apps/api/src/idempotency/request-hash.util.ts:8-24 | a canonical text says where its value ends and which value it is |
| Canonical.SameIsStable | apps/api/src/idempotency/request-hash.util.ts:17-23 | values equal up to key order have one canonical text, at every depth |
| Canonical.BodyReads | apps/api/src/idempotency/request-hash.util.ts:9-11 | quoting loses nothing: every sequence of code units, lone surrogates included, is read back |
| Canonical.BeforeIsLexicographic | apps/api/src/idempotency/request-hash.util.ts:17-18 | the order of the keys is lexicographic in code units |
| Canonical.KeysAscend | apps/api/src/idempotency/request-hash.util.ts:17-23 | the members of every object are printed in that order |
| Canonical.EscapesOfRfc8259 | apps/api/src/idempotency/request-hash.util.ts:9-11 | which code units of a string are escaped, and how |
| PayloadTexts.PayloadTextsAreInjective | apps/api/src/transfers/transfer.service.ts:413-420 | two request payloads, ids as typed, have one canonical text exactly when they are the same payload |
| PayloadTexts.PayloadIsWellFormed | apps/api/src/money-requests/money-request.service.ts:350-358 | the payload objects have distinct keys |
| PayloadTexts.SurrogatesOfRfc2781 | apps/api/src/idempotency/request-hash.util.ts:33-35 | characters beyond the basic plane are surrogate pairs that hold their upper and lower ten bits |
| Money.ParserIsExact | apps/web/lib/money.ts:44-78 | the parser accepts exactly the texts whose cleaned form is in the grammar, has a digit and denotes an amount in range, and answers with 100 times that number |
| Money.ParserRefusals | apps/web/lib/money.ts:47-75 | a text in the grammar is accepted or refused for one of four reasons, each by what it denotes |
| Money.NotValidIsNoGrammar | apps/web/lib/money.ts:51-53 | a text is called not valid exactly when its cleaned form is not in the grammar |
| Money.WhiteSpaceAroundIsIgnored | apps/web/lib/money.ts:45-45 | white space on either side never changes the result |
| Money.CommasAreIgnored | apps/web/lib/money.ts:45-45 | a comma put anywhere changes nothing, except exactly where it separates the text from white space around it: then the text is not valid |
| Money.WhiteSpaceOfEcmaScript | apps/web/lib/money.ts:45-45 | white space is that of ECMAScript, by code point |
| Money.RoundTrip | apps/web/lib/money.ts:14-23 | parsing what was printed gives the amount back, for every amount the API accepts |
| Money.SignsComeFirst | apps/web/lib/money.ts:14-29 | a negative amount is the positive one behind a minus sign, and the taka sign stands before the digits |
| Money.RoundingIsHarmless | apps/web/lib/money.ts:61-67 | double arithmetic is exact below the safe-integer guard and never falls back under it |
| Money.PrintersAgree | apps/api/src/common/money/format-minor.util.ts:10-21 | the API's printer and the web page's print every amount alike |
| Money.GroupingsAgree | apps/api/src/common/money/format-minor.util.ts:17-17 | inserting commas at the lookahead boundaries is grouping by thousands |
| Tables.EffectiveStatus | apps/api/src/money-requests/money-request.mapper.ts:11-20 | the derived status differs from the stored one only by reading PENDING as EXPIRED, and does so exactly from the deadline on |

## Left out

- Controllers, guards, schemas, sessions, rate limiting, health, configuration and the web pages: transport and interface.
- SQL and Prisma themselves: tables are maps and sequences, statements are steps. The key-share locks that foreign keys take on a referenced row are not modelled: the only wallets and requests locked FOR UPDATE are referenced by inserts of the transaction that holds that lock, and users are never locked FOR UPDATE.
- Account and wallet statuses are constants after registration, because nothing in the modelled code changes them; registration is one atomic step without its credential checks.
- Audit rows, httpStatus on errors, display names, and the expiry of idempotency records, which the code writes and never reads.
- Tables.Error: a violated constraint and a missing row are both an internal error of the API, kept apart here; the error code of "still being processed" is the one of key reuse in the code; the model keeps the two apart by their message.
- Operations.RiskEvents: the risk rules answer with any level; scores, reasons and the velocity count are not modelled.
- AuthService.refresh and VerificationService.submitNid read their state outside their transactions, so their state machines hold only for serial calls.
- The AI explanation of a score, the poller that calls drain, and a failing claim query, which ends a drain early as if nothing were due.
- Limits.EveryWindowObeysItsLimit: that a row's created_at is not earlier than the clock reading of its own check is assumed; both are taken by the API process in this order, and Limits.WindowsNeedTheClockToRun shows that nothing less will do.
- Tables.ToRequestDto: created_at, updated_at and resolved_at of requests are not columns of the model's request table; Activity has created_at for paging.
- SHA-256, UUID generation, Date printing and parsing: taken to be injective, fresh and faithful; Cursor.Faithful and PayloadTexts.Injective say what is used, and Cursor.SomeDatesAreFaithful and PayloadTexts.SomeInstantTextsAreInjective that it can be had.
- Cursor.DecodeCursor: Node's decoder is taken to skip characters outside both base64 alphabets, and a UTF-8 sequence beyond ASCII to decode to characters that no UUID or bar contains.
- Canonical.Stable: numbers are integers printed in decimal, as every number below 10^21 is; undefined and Date values lie outside the domain, and the payloads contain none.
- Money.FormatMinorAmount: dividing a safe integer by 100 and truncating is taken to be exact, and toLocaleString to group by thousands.
- Money.FormatMinorUnits: the digits, grouping and sign are modelled for every currency; only BDT is compared with the web printer, which knows no other.
- Trimming of the typed ids by the request schemas, and the bound that the schemas put on amounts.
- The counters and bigint columns are unbounded integers; Accounts.NoBalanceExceedsTheSeeds gives the bound for balances.
- The user search cursor belongs to the ORM; the cursor helpers that only wrap an id add nothing beyond Cursor.Base64UrlRoundTrip.
- Marking notifications as read, and their list, which pages by the same query as Keyset.
