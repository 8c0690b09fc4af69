# Verified model of the invoice and stock services

The repository is an invoicing system of two services. *Billing* issues invoices and
prints them; *stock* owns a catalogue of products with balances. They share no database
and talk through an outbox, a broker and an inbox. Printing is a saga: billing moves an
invoice from OPEN to PRINTING and asks stock to debit its items; stock answers, and
billing closes the invoice or reopens it. This project models that saga and the
algorithms beside it in Dafny, and proves what they guarantee.

`dafny verify dfyconfig.toml` checks everything. Nothing here executes the original
program.

## How it is laid out

| file | what it holds |
|---|---|
| `Common.dfy`, `Contracts.dfy` | shared types, a stable sort, the events of the two services |
| `Ledger.dfy`, `LedgerOperations.dfy` | products, movements, debits and adjustments as functions on the tables, and the ledger invariant |
| `Channels.dfy`, `Invoices.dfy` | one direction of the messaging as a value; the invoice and its print life cycle |
| `Saga.dfy`, `SagaTheorems.dfy` | both services and both channels as one state machine, its invariant, and the theorems over all its runs |
| `Messaging.dfy`, `Relay.dfy`, `StockStore.dfy`, `BillingStore.dfy` | the same code as the objects and tables it updates in place, each method proved against the functions above |
| `Deployment.dfy` | the services wired together; every operation on them, from a print to retention and the replay of dead letters, is proved to be steps of the saga, so the theorems about runs are about this code |
| `Locks.dfy` | a row lock manager running the lock programs of debits and adjustments |
| `RateLimit.dfy` | the token bucket with eviction |
| `Sessions.dfy` | refresh tokens and session families |
| `Idempotency.dfy` | idempotency keys, the store and the middleware |
| `Paging.dfy` | cursor paging, the catalogue walk, attaching items to a page |
| `Lines.dfy` | merging the lines of a new invoice, from the request to the debit |
| `Breaker.dfy` | the circuit breaker |
| `Csv.dfy` | the CSV writer against the reader of pasted rows |

Imperative code is modelled as classes and methods with loops; each method states the
new state as a function of the old one. What those functions do is stated a second time
without them, on the rows and fields alone (who is told what, which rows change and how,
which are left as they were), and the deeper properties are proved about them and about
runs of the resulting state machines.

## What the main results say

- **Print saga.** In every reachable state, whatever is published twice, delivered late,
  repeated, dead lettered, replayed, reopened by timeout or forgotten by retention: an
  invoice is CLOSED only if stock debited it, and a debited one is CLOSED or its
  confirmation is still in the outbox, the queue or the dead letter queue; an invoice
  PRINTING attempt n has request n or an answer to it still to be applied; requests carry
  the attempts 1 to n once each; an answer applied once never has an effect again. Without
  new prints, duplicates, failures and replays a measure bounds the remaining work, and from
  every reachable state without dead letters the relays and consumers alone lead to one in
  which nothing is PRINTING and CLOSED means debited.
- **Ledger.** Balances are never negative and equal the sum of their movements, every
  movement says what the balance became, an invoice appears in the history with exactly
  its items or not at all, and an edit based on a stale read is refused.
- **Exact conditions.** A debit succeeds if and only if the totals fit; an adjustment
  batch if and only if every product is found and its running balance stays in range;
  eviction in the rate limiter is invisible if and only if two windows of every policy
  refill every other; a token is exchanged if and only if it is the last of a session that
  neither ended nor expired; a CSV row is read back, and an exported catalogue imported, if
  and only if its cells are plain.
- **Where the code and its comments differ** the code was followed; for the first four the
  exact condition under which the promise holds is proved:
  - `pagination.go` lines 3-5 promise that no item shows up twice or disappears. Sorted by
    balance, a product that moves forward between pages can be returned twice and one that
    falls back can be missed, and only such ones (`NoRowTwice`, `NoRowMissed`,
    `BalancePagesRepeatIff`, `BalancePagesMissIff`). Numbers and codes never change, so
    those listings keep the promise.
  - `bulk.go` lines 177-178 promise that an adjustment and a print never deadlock. They
    cannot while products are named by id; a batch that names them by code locks in code
    order, and can exactly when that order turns back among products in stock
    (`BatchCanDeadlockIff`).
  - A batch may name one product twice, by its id and its code or by one id beside two
    codes, and pass validation. It is then judged by its running balance in sorted order, so
    it can be refused although it fits in total (`AdjustRunningIff`, `EveryOrderIff`,
    `SameProductTwiceIsRefused`).
  - `ratelimit.go` line 85 announces how long a caller should wait. That is always enough,
    but not always needed: with one call an hour allowed to one policy and a window of a
    second for another, a caller refused for an hour is let through after three seconds if
    anyone asks under the other policy (`RetryAfterIsNeededIff`).
  - `breaker.go` line 100 speaks of a single probe; every call is let through while half
    open. The model lets them all through and nothing is claimed about their number.
  - In a refused batch the items applied before the failing one still read as succeeded,
    though they were rolled back; `Adjust` states exactly which.

## Assumptions

- Ids drawn at random (rows, messages, token families, token hashes) are new. A UUID is the
  number its text spells, so text order is numeric order.
- The databases start empty. Unique indexes and CHECK constraints are those of the
  migrations under `backend/internal/*/migrations`. Both queues exist before the first
  message is published.
- A SQL transaction is one atomic step and a savepoint a nested undo; a transaction that
  fails for technical reasons changes nothing and is no step.
- There is one clock and it does not run backwards. Postgres `now()` and Go `time.Now()` of
  one transaction are the same moment; a relay round uses one moment throughout.
- `upper`, `strings.ToUpper` and `ILIKE` are needed on ASCII only. Texts are ordered by
  code point; the paging results hold for any strict total order of the keys.
- `float64` tokens are real numbers, and the name of a rate policy holds no NUL character.

## Model

| member | source | states |
|---|---|---|
| SagaTheorems.NoOrphanDebit | backend/internal/billing/print_store.go:100-128 | On every run a CLOSED invoice was debited, and a debited one is CLOSED or has its confirmation in stock's outbox, the queue or the dead letter queue |
| SagaTheorems.NoStuckPrint | backend/internal/billing/print_store.go:47-93 | On every run a PRINTING invoice has the request of its attempt or an answer to it still to be applied; once both channels are drained nothing is PRINTING and CLOSED equals debited, reconciler or not |
| SagaTheorems.LedgerConserved | backend/internal/stock/debit.go:43-122 | On every run balances are non-negative sums of their history, each row says what the balance became, and a debited invoice's history is exactly its items while any other invoice has none |
| SagaTheorems.StaleEditsAreRefused | backend/internal/stock/store.go:80-131 | On every run an edit made on what was read earlier lands only if nothing moved the product since; otherwise it is refused and changes nothing |
| SagaTheorems.RequestsAreTheAttempts | backend/internal/billing/print_store.go:70-89 | On every run the requests enqueued for an invoice carry exactly the attempts 1 to PrintAttempt, each once, each with the stored items |
| SagaTheorems.RejectionReopensItsAttempt | backend/internal/billing/print_store.go:130-164 | A rejection changes an invoice exactly when it is PRINTING the attempt the rejection echoes, or the rejection names none, and then only reopens it with the reason |
| SagaTheorems.AnswersApplyOnce | backend/internal/platform/messaging/consumer.go:73-98 | On every run an answer once applied has no effect at any later delivery, even after its inbox record was deleted |
| SagaTheorems.QuietStepShrinks | backend/internal/platform/messaging/relay.go:115-145 | Without new prints, duplicates, failures and replays no step adds work, and each that publishes, marks, applies, skips or reopens strictly lowers a measure |
| SagaTheorems.QuietRunsAreBounded | backend/internal/billing/printing.go:98-125 | From any reachable state a quiet continuation does at most as many working steps as the measure says |
| SagaTheorems.UndrainedCanMove | backend/internal/platform/messaging/relay.go:59-90 | While something is unpublished or queued, and no dead letter is left, some quiet step lowers the measure |
| SagaTheorems.QuietEndIsConsistent | backend/internal/billing/print_store.go:166-179 | A reachable state without dead letters in which no step of the relays and consumers works any more has no PRINTING invoice, and CLOSED is exactly debited; the reconciler has no part in it |
| SagaTheorems.QuietEndIsReachable | backend/internal/platform/messaging/relay.go:59-145 | From every reachable state without dead letters such an end is reached by steps of the relays and consumers alone, at most as many as the measure says |
| Saga.StepKeepsInv | backend/internal/stock/debit.go:124-186 | Every step of either service or of the messaging keeps the invariant the theorems rest on |
| Channels.UpkeepLosesNothing | backend/internal/platform/messaging/rabbit.go:256-309 | Publishing, marking, retention, redelivery, dead lettering, replay and forgetting lose no message still to be applied |
| Channels.EnqueueAddsWaiting | backend/internal/platform/messaging/outbox.go:39-55 | A message enqueued in the sender's transaction is waiting from then on, and no other stops waiting |
| Channels.ConsumeSettlesOne | backend/internal/platform/messaging/consumer.go:80-97 | Applying a message with its inbox record settles that message and no other |
| Messaging.BackoffDoublesToAMinute | backend/internal/platform/messaging/outbox.go:157-164 | The delay is a second at first, doubles with each attempt and never exceeds a minute |
| Messaging.FirstBySequenceIsFirst | backend/internal/platform/messaging/outbox.go:63-115 | A claim takes the due rows first in sequence, ascending, at most the limit, and leaves a due row only when the limit is reached by earlier ones |
| Messaging.ClaimsAreExclusive | backend/internal/platform/messaging/outbox.go:57-143 | Whatever is inserted, claimed, published, failed or removed in between, a message claimed within the lease is handed to nobody else, unless its own publication was recorded as failed |
| Messaging.ClaimTakesTheFirstDue | backend/internal/platform/messaging/outbox.go:63-79 | A claim hands out unpublished due messages in sequence, fifty at most when no limit is given, and leaves a due one only when the limit is reached by earlier ones |
| Messaging.ClaimLeases | backend/internal/platform/messaging/outbox.go:67-71 | Each row handed out has one attempt more and is hidden for thirty seconds; no other row changes |
| Messaging.Outbox.EnqueueTx | backend/internal/platform/messaging/outbox.go:44-55 | A new message is stored unpublished, due now and last in sequence; a repeated id inserts nothing |
| Messaging.Outbox.Claim | backend/internal/platform/messaging/outbox.go:63-115 | Returns the first due messages in order and hides exactly their rows for the lease, counting an attempt |
| Messaging.Outbox.MarkPublished | backend/internal/platform/messaging/outbox.go:118-127 | Stamps that row and no other |
| Messaging.Outbox.MarkFailed | backend/internal/platform/messaging/outbox.go:131-143 | Puts that row off by the backoff of its attempts and touches no other |
| Messaging.Outbox.DeletePublishedBefore | backend/internal/platform/messaging/outbox.go:184-192 | Deletes exactly the rows published before the age and counts them; an unpublished row is never deleted |
| Relay.Queue.Deliver | backend/internal/platform/messaging/rabbit.go:256-309 | A delivery leaves the queue and becomes a dead letter exactly when the handler gave up |
| Relay.Queue.Replay | backend/internal/platform/messaging/rabbit.go:371-419 | Moves the oldest dead letters back up to the limit, stops at the first failure, and leaves the letter at fault in one or both places, never in none |
| Relay.RunOnce | backend/internal/platform/messaging/relay.go:115-145 | A round publishes the claimed batch in order, records each outcome on its row and counts the confirmed ones |
| Relay.RelayRoundIsUpkeep | backend/internal/platform/messaging/relay.go:107-145 | Any round, however its publications end, is a sequence of channel upkeep steps: it loses nothing and duplicates at worst |
| Relay.RoundRecordsOutcomes | backend/internal/platform/messaging/relay.go:115-145 | After a round every claimed row has one attempt more and tells how its publication went: stamped, put off by a second doubling with each attempt up to a minute, or waiting out its lease; every other row is as it was |
| Relay.RoundPublishes | backend/internal/platform/messaging/relay.go:121-136 | The broker holds each message once more exactly when it was in the round and not refused |
| Relay.RoundCounts | backend/internal/platform/messaging/relay.go:120-143 | The round counts exactly the publications that were confirmed and recorded |
| Ledger.DebitLinesCharacterised | backend/internal/stock/debit.go:68-121 | The loop of conditional decrements succeeds exactly when every quantity is positive, every product exists and covers its total, and then takes exactly the totals |
| Ledger.DebitSucceedsIff | backend/internal/stock/debit.go:49-167 | For an invoice not yet debited the sorted debit in its savepoint succeeds exactly when the unsorted lines can be fulfilled; otherwise nothing changes, the debit row included |
| Ledger.AnswerNamesTheFault | backend/internal/stock/debit.go:68-210 | Billing is told debited when the invoice was debited before or every line can be taken; otherwise the first line in lock order that cannot be taken decides the code: invalid_product for a quantity that is not positive, product_not_found for an unknown product, insufficient_balance when the balance less what the earlier lines take is too small |
| Ledger.DebitHistory | backend/internal/stock/debit.go:84-98 | A debit that goes through adds exactly one movement per line, in lock order, with what it took, what was left after it and its invoice |
| Ledger.ChainedRowByRow | backend/internal/stock/movement.go:56-83 | Each movement is a non-zero change whose balance_after is the sum of its product's movements up to it |
| Ledger.WriteKeepsBalanced | backend/internal/stock/movement.go:63-83 | Changing a balance together with its movement keeps balances and history in agreement |
| Ledger.DebitLinesRecorded | backend/internal/stock/debit.go:84-98 | A debit leaves its own lines under its own invoice in the history and nothing under any other |
| LedgerOperations.AdjustAcceptedIff | backend/internal/stock/bulk.go:165-240 | A batch of distinct products is accepted exactly when every product exists and stays within its column, whatever order it is applied in; each product then moved by its own delta, and a refusal changes nothing |
| LedgerOperations.AdjustRunningIff | backend/internal/stock/bulk.go:189-240 | Any batch, naming its products once or several times, is accepted in the order it is applied exactly when every product is found and its running balance stays within the column; then every product moved by the sum of its movements, and a refusal changes nothing |
| LedgerOperations.EveryOrderIff | backend/internal/stock/bulk.go:177-182 | A batch is accepted in every order exactly when every product is found, covers all that is taken from it alone and has room for all that is added alone |
| LedgerOperations.AdjustHistory | backend/internal/stock/bulk.go:207-222 | An accepted batch adds exactly one movement per item, in the order applied, with its delta, what the balance became and the adjustment as its source |
| LedgerOperations.ResolveFinds | backend/internal/stock/bulk.go:195-205 | An item names the product of its id or, when that is nil, the one whose code it gives |
| LedgerOperations.CodesIgnoreCase | backend/internal/stock/migrations/0001_create_products.sql:20 | Two codes are the same exactly when they are letter for letter, in either case |
| StockStore.ReportTells | backend/internal/stock/bulk.go:166-256 | Every item of the answer tells what became of its own movement: skipped after one that failed, unknown product, balance and change when it was not covered, or applied |
| LedgerOperations.RegistrationStoresTheProduct | backend/internal/stock/store.go:38-74 | A product is registered exactly when its columns accept it and neither its id nor its code is taken; its row is what was typed at version 1 and its first movement brings the whole balance |
| LedgerOperations.EditStoresWhatWasTyped | backend/internal/stock/store.go:80-131 | An edit lands exactly on the version read with acceptable values; then the row has what was typed, its own code and the next version, no other row changes, and the history gains exactly the difference |
| StockStore.SameProductTwiceIsRefused | backend/internal/stock/bulk.go:122-182 | Two batches pass validation although they name one product twice, by id and by code and by one id beside two codes; each adds and takes one unit, is sorted so that the taking comes first, and is refused |
| LedgerOperations.PerformKeepsBalanced | backend/internal/stock/store.go:38-131 | Registering, editing and adjusting keep balances and history in agreement and touch no debit |
| LedgerOperations.PerformFramesInvoices | backend/internal/stock/movement.go:56-83 | None of them writes history under an invoice |
| StockStore.ValidateAdjustments | backend/internal/stock/bulk.go:122-160 | Valid exactly when every movement is sound and no two share a key; each flawed item says its own flaw, a repeated one the index where its key came first |
| StockStore.Database.Create | backend/internal/stock/store.go:38-74 | The tables after registering a product, or an error and no change: a row that fails a CHECK of its table, or else a code that is taken |
| StockStore.Database.Update | backend/internal/stock/store.go:80-131 | The tables after an edit on the version read, or an error and no change |
| StockStore.Database.DebitTx | backend/internal/stock/debit.go:49-122 | Debits the lines in some order by product id, recording each movement; an invoice already debited changes nothing |
| StockStore.Database.Adjust | backend/internal/stock/bulk.go:165-240 | All movements or none, and result i describes adjustment i although they are applied sorted |
| StockStore.Database.PrintRequestHandler | backend/internal/stock/debit.go:128-210 | A handled request leaves the debit of its savepoint and one answer, due now, echoing its attempt and naming the fault of the first line that could not be taken; a failing one leaves nothing |
| StockStore.Database.HandleOnce | backend/internal/platform/messaging/consumer.go:73-98 | Effect, answer and inbox record are committed together or not at all; a known message changes nothing |
| StockStore.Database.MarkProcessedTx | backend/internal/platform/messaging/inbox.go:17-29 | Reports whether the message is new and records exactly it |
| StockStore.Database.DeleteProcessedBefore | backend/internal/platform/messaging/inbox.go:33-41 | Forgets exactly the records older than the age |
| Invoices.RequestLinesAreTheItems | backend/internal/billing/print_store.go:76-81 | The lines of a request are the stored items, each once |
| Invoices.RequestLinesInCodeOrder | backend/internal/billing/print_store.go:189-198 | Line by line they carry product and quantity of the items in the order of their codes |
| Invoices.PrintStartsIff | backend/internal/billing/print_store.go:36-65 | A print starts exactly for an OPEN invoice with items, which is then PRINTING since now under the next attempt without an old failure; having no items is reported first |
| Invoices.ConfirmationCloses | backend/internal/billing/print_store.go:108-128 | A confirmation of any attempt closes the invoice and stamps it, leaves a closed one as it was and touches no other |
| Invoices.ReopensExactlyTheStale | backend/internal/billing/print_store.go:166-179 | Exactly the invoices PRINTING since before the timeout change, and of them only status, starting moment and failure, to OPEN, none and print_timeout |
| BillingStore.InvoiceObject.StartPrinting | backend/internal/billing/invoice.go:134-148 | Only an OPEN invoice starts, as a new attempt with its failure cleared |
| BillingStore.InvoiceObject.Close | backend/internal/billing/invoice.go:150-163 | Closes from any state and leaves a closed invoice as it was |
| BillingStore.InvoiceObject.Reopen | backend/internal/billing/invoice.go:165-176 | Only a PRINTING invoice reopens, with the reason |
| BillingStore.Database.Create | backend/internal/billing/store.go:33-86 | Stores an open invoice with its items, all or nothing, exactly when the constraints allow it |
| BillingStore.Database.StartPrinting | backend/internal/billing/print_store.go:18-98 | The invoice moves and its request is enqueued, both or neither |
| BillingStore.Database.CloseTx | backend/internal/billing/print_store.go:108-128 | Closes the invoice whichever attempt was confirmed |
| BillingStore.Database.ReopenTx | backend/internal/billing/print_store.go:139-164 | Reopens the invoice only while it prints the attempt in question |
| BillingStore.Database.ReopenStalePrintings | backend/internal/billing/print_store.go:169-179 | Reopens exactly the invoices printing for longer than the timeout and counts them |
| BillingStore.Database.DeleteProcessedBefore | backend/internal/platform/messaging/inbox.go:33-41 | Forgets exactly the records older than the age |
| BillingStore.Database.HandleOnce | backend/internal/billing/printing.go:41-76 | An answer takes effect together with its inbox record or not at all; a known one changes nothing |
| Deployment.Services.CreateInvoice | backend/internal/billing/service.go:35-83 | A request whose lines are accepted and products found is stored and is the saga's first step of that invoice |
| Deployment.Services.RequestPrint | backend/internal/billing/printing.go:34-37 | Succeeds exactly when the saga allows a print, and is that step |
| Deployment.Services.ConsumeRequest | backend/internal/stock/debit.go:128-186 | A delivery to stock is the saga step that applies it, recognises it or dead letters it |
| Deployment.Services.ConsumeAnswer | backend/internal/billing/printing.go:41-76 | A delivery to billing is the saga step that applies it, recognises it or dead letters it |
| Deployment.Services.ReconcileOnce | backend/internal/billing/printing.go:116-125 | A round of the reconciler is the saga's reconcile step |
| Deployment.Services.RelayRequests | backend/internal/platform/messaging/relay.go:115-145 | A relay round of billing is a run of the saga's upkeep steps |
| Deployment.Services.RelayAnswers | backend/internal/platform/messaging/relay.go:115-145 | A relay round of stock is a run of the saga's upkeep steps |
| Deployment.Services.ReplayRequests | backend/internal/platform/messaging/rabbit.go:371-419 | A replay of billing's dead letters, also one that leaves a letter in both places, is a run of upkeep steps |
| Deployment.Services.ReplayAnswers | backend/internal/platform/messaging/rabbit.go:371-419 | A replay of stock's dead letters is a run of upkeep steps |
| Deployment.Services.DropPublishedRequests | backend/internal/platform/messaging/outbox.go:184-192 | Retention of billing's outbox is a run of upkeep steps |
| Deployment.Services.DropPublishedAnswers | backend/internal/platform/messaging/outbox.go:184-192 | Retention of stock's outbox is a run of upkeep steps |
| Deployment.Services.ForgetProcessedRequests | backend/internal/platform/messaging/inbox.go:33-41 | Retention of stock's inbox is a run of upkeep steps |
| Deployment.Services.ForgetProcessedAnswers | backend/internal/platform/messaging/inbox.go:33-41 | Retention of billing's inbox is a run of upkeep steps |
| Deployment.Services.RegisterProduct | backend/internal/stock/store.go:38-74 | Registering a product is the saga's step for it, accepted or refused |
| Deployment.Services.EditProduct | backend/internal/stock/store.go:80-131 | Editing a product is the saga's step for it, accepted or refused |
| Deployment.Services.AdjustBalances | backend/internal/stock/bulk.go:105-118 | A batch is accepted exactly when every movement is sound, no two share a key and the running balances stay in range, and what it does is a step of the saga |
| Locks.NoWaitCycle | backend/internal/stock/debit.go:61-66 | While every transaction asks for its new locks in the one order, no reachable state of the lock manager has a cycle of waiting |
| Locks.SomeTransactionMovesOn | backend/internal/stock/debit.go:61-66 | Then some unfinished transaction can always take its next lock or commit |
| Locks.RequestsAscend | backend/internal/platform/messaging/consumer.go:80-91 | Whatever tables it finds, a print request asks for its inbox row, its debit row and its products in that order |
| Locks.AdjustmentsByIdAscend | backend/internal/stock/bulk.go:177-182 | A batch naming its products by id asks for them in that order too |
| Locks.DebitsAndBatchesByIdNeverDeadlock | backend/internal/stock/debit.go:61-66 | On every run of print requests and batches naming their products by id, whatever tables each starts from, nobody waits in a circle and some unfinished transaction can move on |
| Locks.BatchCanDeadlockIff | backend/internal/stock/bulk.go:177-182 | For every table and batch, some debit and some run of the two reach a state in which each waits for the other exactly when the batch, in the order it locks, turns back from a product to one with a smaller id that it does not hold, both in stock |
| Locks.AdjustmentsByCodeCanDeadlock | backend/internal/stock/bulk.go:177-182 | Of two registered products adjusted by code, the first in code order having the larger id, that is the case |
| RateLimit.TokenBucket.EvictStale | backend/internal/platform/ratelimit/ratelimit.go:181-188 | Drops exactly the buckets untouched for two windows of the policy asked about |
| RateLimit.TokenBucket.Allow | backend/internal/platform/ratelimit/ratelimit.go:128-177 | The buckets and the decision after one call: eviction, refill up to the allowance, one token if there is one |
| RateLimit.SwitchedOffRemembersNothing | backend/internal/platform/ratelimit/ratelimit.go:128-134 | Under a policy that allows no requests every call goes through and no bucket is kept |
| RateLimit.AllowTakesAToken | backend/internal/platform/ratelimit/ratelimit.go:136-177 | A call goes through exactly when it finds a whole token, from a full allowance or what its bucket held and gained, and takes it; exactly the other buckets idle for two windows are forgotten |
| RateLimit.AllowAnnounces | backend/internal/platform/ratelimit/ratelimit.go:158-177 | The limit, the whole tokens left, the time to the next token of a refused call but a second at least, and the time to a full allowance, in whole nanoseconds |
| RateLimit.EvictionInvisibleIff | backend/internal/platform/ratelimit/ratelimit.go:144-156 | The limiter answers every sequence of calls as one that never evicts exactly when two windows of every policy in use refill the allowance of every other |
| RateLimit.RateBound | backend/internal/platform/ratelimit/ratelimit.go:158-177 | Under such policies the calls allowed to one caller between any s and t are at most the allowance plus (t - s) times the rate |
| RateLimit.RefusedCallsCostNothing | backend/internal/platform/ratelimit/ratelimit.go:158-177 | Leaving a refused call out of any sequence changes no other answer |
| RateLimit.RetryAfterIsEnough | backend/internal/platform/ratelimit/ratelimit.go:128-177 | On every run a refused caller that asks nothing until the announced wait is over is then let through, whatever others ask meanwhile |
| RateLimit.RetryAfterIsNeededIff | backend/internal/platform/ratelimit/ratelimit.go:144-168 | That on every run such a caller is refused before the announced wait is over, where it was not rounded up to a second, holds exactly when two windows of every policy outlast the longest wait any policy announces |
| RateLimit.HarmlessIsPatient | backend/internal/platform/ratelimit/ratelimit.go:144-168 | It holds under every set of policies whose evictions are invisible |
| RateLimit.ResetIsFull | backend/internal/platform/ratelimit/ratelimit.go:128-177 | On every run a caller that asks nothing until the announced reset has passed is answered as one never seen |
| RateLimit.RemainingIsExact | backend/internal/platform/ratelimit/ratelimit.go:128-177 | On every run exactly the announced number of further calls at the same moment is let through, whatever others ask in between |
| RateLimit.TokensInRange | backend/internal/platform/ratelimit/ratelimit.go:128-177 | In every state of every run each bucket of a policy holds between nothing and its allowance |
| Sessions.Store.StoreRefreshToken | backend/internal/identity/store.go:113-122 | Inserts a first token exactly when its user exists, its hash is new and it outlives its issue |
| Sessions.Store.RotateRefreshToken | backend/internal/identity/store.go:124-203 | The rows and the answer for an unknown, replayed, revoked, expired or good token |
| Sessions.Store.RevokeRefreshToken | backend/internal/identity/store.go:205-221 | Revokes exactly the family of the token, or nothing for an unknown one |
| Sessions.Store.RevokeAllForUser | backend/internal/identity/store.go:224-232 | Revokes exactly the tokens of the account |
| Sessions.Store.DeleteUser | backend/internal/identity/store.go:90-101 | Removes the account with its tokens |
| Sessions.Store.DeleteExpiredTokens | backend/internal/identity/store.go:235-241 | Removes exactly the tokens expired for 30 days and counts them |
| Sessions.Store.Refresh | backend/internal/identity/service.go:127-148 | An empty token is refused before the store; any other is rotated |
| Sessions.Store.Logout | backend/internal/identity/service.go:151-156 | An empty token does nothing; any other ends its session |
| Sessions.Store.DeleteAccount | backend/internal/identity/service.go:163-183 | With the right password the sessions and then the account go; otherwise nothing changes |
| Sessions.RotationIff | backend/internal/identity/store.go:131-203 | A token is exchanged exactly when it is stored, unused, unrevoked and unexpired, its account exists and the next token can be stored; then it is stamped and the next one joins its family; any other answer but a detected reuse changes nothing |
| Sessions.ReplaysToldApart | backend/internal/identity/store.go:152-176 | A used token is a harmless repeat within fifteen seconds of an unrevoked family and otherwise a reuse, which revokes exactly that family |
| Sessions.RevokingMarksExactly | backend/internal/identity/store.go:205-250 | Signing out revokes exactly the family of the token, ending a user exactly the tokens of the user, and a token keeps the moment it was first revoked |
| Sessions.StepKeepsInv | backend/internal/identity/store.go:103-250 | Every operation keeps the stored rows in agreement with the list of tokens of each session ever started |
| Sessions.ExchangeIff | backend/internal/identity/store.go:138-202 | In every reachable state a token is exchanged exactly when it is the last of a session that neither ended nor expired, whatever retention removed |
| Sessions.ReplayIff | backend/internal/identity/store.go:152-176 | A spent token inside the grace period of a running session changes nothing; later, or in an ended session, it ends its session; which of the two is decided exactly |
| Sessions.OthersUntouched | backend/internal/identity/store.go:205-221 | Refreshing and signing out leave every other family's rows and history as they were |
| Sessions.RowsOfOneFamilyAgree | backend/internal/identity/store.go:103-111 | The rows of a family have one owner, at most one unused token, and are all revoked or none is |
| Sessions.ExchangedAtMostOnce | backend/internal/identity/store.go:181-189 | On every run a token is exchanged at most once |
| Sessions.EndedForGood | backend/internal/identity/store.go:243-250 | On every run no token of an ended session is ever exchanged again |
| Sessions.LateReplayEndsTheSession | backend/internal/identity/store.go:167-175 | On every run a stored token presented again later than the grace period after its exchange ends its session for good |
| Sessions.LogoutEndsTheSession | backend/internal/identity/service.go:150-156 | On every run signing out with any stored token of a session ends it for good |
| Idempotency.PostgresStore.Reserve | backend/internal/platform/idempotency/postgres.go:28-92 | The row and the answer for a new, reused, finished, running or abandoned key, and for one that another request inserted after it was read as free |
| Idempotency.PostgresStore.Complete | backend/internal/platform/idempotency/postgres.go:95-104 | Stores the answer on the row of the key and nowhere else |
| Idempotency.PostgresStore.Release | backend/internal/platform/idempotency/postgres.go:113-121 | Removes the reservation unless it was completed |
| Idempotency.PostgresStore.DeleteCompletedBefore | backend/internal/platform/idempotency/postgres.go:130-138 | Removes exactly the answers older than the age and counts them; a reservation is left alone |
| Idempotency.PostgresStore.Serve | backend/internal/platform/idempotency/middleware.go:20-73 | What a client gets and what the table holds after one request through the middleware |
| Idempotency.UnguardedPassesThrough | backend/internal/platform/idempotency/middleware.go:20-38 | A request without a key, or that is no POST, PUT, PATCH or DELETE, is handled and leaves no trace; one with a malformed key or a body over a mebibyte is refused before anything runs |
| Idempotency.NewKeyIsHandled | backend/internal/platform/idempotency/middleware.go:40-71 | The first request under a key is handled and its row is exactly its hash, answer and two moments, or nothing after a server failure |
| Idempotency.KnownKeyIsJudged | backend/internal/platform/idempotency/postgres.go:28-92 | A known key refuses another request, replays a kept answer, reports a run in progress, and is taken over exactly when its unanswered reservation is two minutes old |
| Idempotency.ValidateKey | backend/internal/platform/idempotency/idempotency.go:58-69 | True exactly for 1 to 128 printable ASCII characters |
| Idempotency.RepeatIsReplayed | backend/internal/platform/idempotency/middleware.go:43-70 | Whatever the table holds, a request repeated after it was handled gets the first answer and runs nothing; after a server failure it runs again, unless the key's row had a completion time and no answer, which no operation writes |
| Idempotency.OneRunInProgress | backend/internal/platform/idempotency/postgres.go:43-92 | On every run in which each handler ends within two minutes at most one per key is in progress |
| Idempotency.LaterRequestsGetTheAnswer | backend/internal/platform/idempotency/postgres.go:55-79 | Until retention removes a completed key, the same request gets its status and body, a different one is refused, and one beaten to the insert is told the request is in progress |
| Idempotency.AtMostOneCompletes | backend/internal/platform/idempotency/middleware.go:53-70 | Until then no second run of the key ends with an answer that is kept |
| Idempotency.SecondRunIff | backend/internal/platform/idempotency/postgres.go:77-91 | A second run starts beside one in progress exactly when the first is two minutes old |
| Idempotency.CompletedKeyStays | backend/internal/platform/idempotency/postgres.go:112-121 | Even on runs with overrunning handlers a completed key stays completed for its own request until retention |
| Idempotency.OverrunRunsTwice | backend/internal/platform/idempotency/postgres.go:77-104 | A run of two minutes is joined by another; both complete and the second answer replaces the first |
| Paging.NormalizeLimit | backend/internal/platform/pagination/pagination.go:75-84 | The limit asked for between 1 and 100, 20 below and 100 above |
| Paging.List | backend/internal/stock/store.go:250-287 | Reading one row more than the page yields the next rows of the list, and a cursor exactly when more follow |
| Paging.PageHoldsTheNext | backend/internal/stock/store.go:230-287 | A page holds wanted rows beyond its cursor in order; whatever it leaves comes after a full page; it has a cursor, on its last row, exactly when it leaves anything |
| Paging.SelectAfter | backend/internal/stock/store.go:230-243 | A cursor on a row of the list selects exactly the rows after it |
| Paging.PagesAreTheList | backend/internal/billing/store.go:114-218 | Following the cursors over an unchanged table gives the filtered sorted list, every row once, in as many pages as it takes |
| Paging.WalkNeverRepeats | backend/internal/platform/pagination/pagination.go:1-7 | Whatever is inserted, removed or changed between pages, no key comes twice |
| Paging.WalkHidesNothing | backend/internal/platform/pagination/pagination.go:1-7 | A row that matches under the same key throughout is returned by a finished walk |
| Paging.FullIgnoresRowOrder | backend/internal/stock/store.go:245-257 | With unique keys the list does not depend on how the database keeps its rows |
| Paging.ListingsAreStrictTotal | backend/internal/stock/movement.go:108-132 | The orders of the invoice, product and movement listings are strict and total in both directions, so the results above apply to each |
| Paging.ListingsGoBy | backend/internal/stock/store.go:233-248 | Invoices go by number, products by code or by balance then code, in the direction asked for; movements of one product newest first |
| Paging.NoRowTwice | backend/internal/platform/pagination/pagination.go:1-7 | For any listing and any changes between its pages, while no wanted row moves forward in the order read no row is returned twice |
| Paging.NoRowMissed | backend/internal/platform/pagination/pagination.go:1-7 | A row wanted throughout that never moves back is returned by a finished walk |
| Paging.BalancePagesRepeatOnlyWhatMovesForward | backend/internal/stock/store.go:233-248 | Sorted by balance, over any changes, no product is returned twice while no wanted one moves forward |
| Paging.BalancePagesRepeatIff | backend/internal/stock/store.go:233-248 | Sorted by balance, when balances change once after the first page, some page size returns a product twice exactly when a wanted product moves forward from a place that was not the last |
| Paging.BalancePagesMissIff | backend/internal/stock/store.go:233-248 | Then some finished walk misses a product wanted before and after exactly when it falls back to or before another it was behind |
| Paging.BalancePagesMayRepeat | backend/internal/stock/store.go:233-248 | A concrete product whose balance rises between pages is returned twice |
| Paging.ListAll | backend/internal/billing/stockclient/client.go:138-168 | The first 2000 rows of the list, or all of it |
| Paging.AttachItems | backend/internal/billing/store.go:223-252 | Every invoice of the page gets its own item rows, in the order read |
| Paging.ItemsForAreItsRows | backend/internal/billing/store.go:240-252 | The items of an invoice are those of exactly its own rows, each once, in the order of the rows |
| Paging.AttachedAsIfAlone | backend/internal/billing/store.go:230-283 | Those are the items, in the order, that reading the invoice alone gives |
| InvoiceLines.NewItemInputs | backend/internal/billing/invoice.go:80-129 | Succeeds exactly when no line is unsound, no product totals over a million and at most 100 are distinct; then one line a product in order of first appearance with its total; a refusal names exactly the lines at fault |
| InvoiceLines.AcceptableIff | backend/internal/billing/invoice.go:80-129 | Acceptable means at least one line, each for a product and a positive quantity, no product over a million in all and at most a hundred products |
| InvoiceLines.FlawNames | backend/internal/billing/invoice.go:91-113 | A line is faulted for naming no product, for asking for nothing, or for passing a million together with the lines accepted before it, in that order |
| InvoiceLines.AcceptedAreTheFlawless | backend/internal/billing/invoice.go:91-122 | The lines accepted are exactly those without a fault, each once and in order |
| InvoiceLines.FirstsAreFirst | backend/internal/billing/invoice.go:107-117 | The order of first appearance has every product once and only those asked for |
| InvoiceLines.NoFlawIff | backend/internal/billing/invoice.go:91-122 | Judged one after the other no line is at fault exactly when all totals together are within the limits |
| InvoiceLines.CreateInvoice | backend/internal/billing/service.go:43-82 | The items are the merged lines with code and description of their products; a lookup failure or the first missing product is reported |
| InvoiceLines.RequestCarriesTheTotals | backend/internal/billing/print_store.go:70-81 | The stored items meet their table's constraints and the print request asks for every product's total as first sent |
| InvoiceLines.DebitTakesTheTotals | backend/internal/stock/debit.go:68-121 | The debit of such an invoice goes through exactly when stock fulfils the lines as first sent, and then lowers every balance by exactly their total |
| Breakers.NewSettings | backend/internal/platform/resilience/breaker.go:42-55 | What was asked for, with one failure for a threshold below one and five seconds for a cool down that is not positive |
| Breakers.Breaker.Do | backend/internal/platform/resilience/breaker.go:58-72 | Refused while open, otherwise the operation's own outcome recorded, a permanent error as a success |
| Breakers.Breaker.Report | backend/internal/platform/resilience/breaker.go:75-90 | "open" exactly when a call would be refused, "closed" exactly when closed |
| Breakers.ClosedCountsFailures | backend/internal/platform/resilience/breaker.go:107-138 | In every interleaving a closed circuit has counted the failures since the last success, fewer than the threshold |
| Breakers.TransitionsIff | backend/internal/platform/resilience/breaker.go:92-138 | It closes exactly on a success while half open, opens exactly on the failure that fills the threshold or fails a probe, and is probed exactly once it cooled down |
| Breakers.ResultsCount | backend/internal/platform/resilience/breaker.go:107-138 | A late success while open clears the count and a late failure that fills the threshold again restarts the cool down; while half open one result decides |
| Breakers.NothingBeforeCooldown | backend/internal/platform/resilience/breaker.go:92-105 | In every interleaving a circuit opened at a moment admits nothing before the cool down is over |
| Breakers.SequentialCalls | backend/internal/platform/resilience/breaker.go:57-72 | For calls that do not overlap the state is a function of the outcomes, and a call goes through exactly unless the last failures in a row fill the threshold and the latest is too recent |
| Csv.SplitCells | frontend/src/app/modules/products/product-import.component.ts:195-225 | The loop over the characters yields the cells of the row |
| Csv.PastedRowIsCut | frontend/src/app/modules/products/product-import.component.ts:196-225 | Cells without quotes are cut at the tab if there is one, else at the semicolon, else at the comma, and each is trimmed |
| Csv.TrimTakesSpaces | frontend/src/app/modules/products/product-import.component.ts:165-222 | Trimming takes all white space from both ends and nothing else |
| Csv.RowIsRead | frontend/src/app/shared/utils/csv.ts:20-37 | Read at commas, any printed row gives every cell guarded and trimmed |
| Csv.RoundTripIff | frontend/src/app/shared/utils/csv.ts:13-37 | A printed row is read back as its cells exactly when all are trimmed and no formula, and none holds a semicolon or tab unless it is a lone quoted cell |
| Csv.FormulasAreDisarmed | frontend/src/app/shared/utils/csv.ts:20-33 | A cell a spreadsheet would run is read back with an apostrophe before it, any other as it was but trimmed |
| Csv.CellIsPrinted | frontend/src/app/shared/utils/csv.ts:20-33 | A missing value is printed as nothing; a text as it is or disarmed, between quotes with its own doubled exactly when it holds a quote, a comma or a line end |
| Csv.ParseCatalogue | frontend/src/app/modules/products/product-import.component.ts:160-193 | The products and errors of a pasted text, line by line |
| Csv.CatalogueIsItsEntries | frontend/src/app/modules/products/product-import.component.ts:160-193 | A pasted text is read as exactly the entries of its lines, in their order: nothing for a blank line or a first header, what is wrong with a line, or its product, with no balance when the count is left out |
| Csv.HeaderIsAWord | frontend/src/app/modules/products/product-import.component.ts:171-175 | The header is code or codigo, accented or not, in any mix of cases |
| Csv.LinesAreCut | frontend/src/app/modules/products/product-import.component.ts:163-164 | Lines joined with CRLF are cut exactly where they were joined |
| Csv.LinesAreCutEitherWay | frontend/src/app/modules/products/product-import.component.ts:163-164 | Lines are cut wherever they end, with a carriage return or without |
| Csv.ImportOfExportIff | frontend/src/app/modules/products/products.component.ts:349-365 | The exported catalogue, byte order mark or not, is imported as the same products in the same order with their line numbers exactly when the first header is recognised and every code and description is not empty, trimmed, no formula and free of semicolons, tabs and line ends |

## Left out

- StockStore.Database.DebitTx: a quantity that does not fit the column, which the driver refuses to encode and the handler does not answer, reads as an insufficient balance; no stored invoice has one, since a quantity is at most a million.
- StockStore.Database.Adjust: `MAX_BALANCE` does not bound a balance, because the code bounds only each delta; the column's own limit is modelled.
- StockStore.Database.HandleOnce: the consumer tries a failing message three times before it is dead lettered; failed attempts change nothing and are not modelled one by one.
- Relay.Queue.Replay: well-formed messages only; an unreadable dead letter is dropped by the code.
- Sessions.Store.RotateRefreshToken: interleavings inside one rotation, because a transaction is one atomic step.
- Idempotency.OneRunInProgress: an answer that cannot be stored after the handler ran counts as a crashed run.
- Paging.List: cursors are keys, not their encoded text; refusals of malformed cursors and of unknown sort columns are not modelled.
- Csv.ParseCatalogue: the conversion between numbers and texts is a parameter, and only that a count is written plainly and read back is used of it.
- The lines an AI assistant drafts, its prompts and its client.
- HTTP, JSON, tokens of other kinds, password hashing, logging, metrics, health, AMQP connections, screens and translations.
- Account lockout; a stale count can still lock, so its comment is not what the code does.
- Columns that decide nothing: invoice number, author, reason, actor, e-mail, user agent, timestamps of rows.
- Overflow of the version column.
- Idempotency.PostgresStore.Serve: serves one request alone; the interleavings of several are the runs of the state machine beside it.
- The limit on the number of items in one batch.
- Registering several products in one batch, which is registering each on its own.
- The retry loop of outgoing calls; it strips the mark of permanent errors, so stock's rejections count as failures of the circuit.
- How many calls a half-open circuit admits; the code admits them all.
