# The money path of accounts-service and ledger-service

This project models how money moves through the two services and proves what holds over every run.

accounts-service keeps an outbox of transactions. HTTP handlers create a row for an idempotency key,
claim it, call the ledger and write the outcome back. A retry worker claims batches of rows and does
the same, and a reconciler requeues or gives up on rows that were left behind. ledger-service posts
each request once as a pair of journal entries and keeps a running balance per account. Any process
may die, any answer may be lost, a request may land late, and a lease may run out.

## How it is laid out

- `Ledger`, `LedgerRuns`, `Verdicts`, `TrialBalance`: the poster. A pure account of one call, including a process
  that dies after any number of writes; the class `LedgerStore` that does the call write by write; and
  what callers are told and what whole runs of calls keep.
- `Outbox`, `OutboxRuns`: the transactions table. One function a SQL statement, the class
  `TransactionTable` that performs them in place, and what statements and pairs of them guarantee.
- `Protocol`: both services and the network as one state machine. The balance read of a handler and the
  insert that relies on it are two steps. Hypotheses can be asked of a run: `Honest` (a replay of a key
  carries the first request's parameters), `Paced` (a row is worked off within a bound), `Timely` (and a
  batch fits into the lease), `Prudent` (a new debit relies on a balance read since which no debit of the
  account was outstanding), `Prompt` (a request lands while its caller waits, or never) and `Reliable` (no
  crash, no lost write-back). Each theorem names those it needs.
- `Deliveries`, `Books`: what holds of every run under no hypothesis.
- `ExactlyOnce`, `CrossService`, `Lease`, `LeaseBound`, `Reliable`, `Overdraft`: what holds under some.
- `CounterRuns`, `Batches`, `OverdraftRuns`: runs that show what goes wrong when one is missing, and that
  no account is overdrawn exactly when none is.
- `LedgerClient`, `Worker`, `AccountService`: the imperative code that drives the protocol; `WorkerResults` and
  `Answers`: what it leaves and answers; `WorkerRuns`, `Runs`: that it is runs of the protocol; `Termination`:
  that the retry worker gives up.
- `History`: the `balance_after` values of the listings.
- `Backoff`, `RateLimit`, `Text`, `Dotenv`, `DotenvMerge`: three small cores of their own.

`dafny verify dfyconfig.toml` checks all of it.

## What turned out to be different from what one might expect

- The comment at services/ledger-service/app/services/ledger_poster.rb:214 says the two entries must
  balance. They do exactly for the combinations of `TrialBalance.OneDebitOneCreditIff`; two accepted
  postings that do not are given. The three shapes accounts-service sends always balance.
- The status updates do not look at the current status. That posted and failed rows are final rests on
  the lease alone, and holds exactly for the configurations of `LeaseBound.FinalIffFits`. With the default
  batch and lease that is 3 seconds a row; with the default timeout of 60 seconds a call there is a run
  that overwrites one.
- `failed` does not mean that the ledger has nothing: `Deliveries.EffectIffDelivered` says when it has.
- The overdraft check reads a balance first and inserts the row later. A debit that is admitted and
  posted in between is seen at neither end (`OverdraftRuns.CheckThenCreateOverdraws`). It is not made at all
  for a replay, which may ask for more than its row (`OverdraftRuns.ReplayOverdraws`). No account is ever
  overdrawn exactly under the conditions of `OverdraftRuns.NeverOverdrawnIff`.
- A listing counts rows that have landed but are not marked posted as no change, so its history is off
  by exactly their effect; page 2 and later of the organisation's listing are off by what was skipped.
- docs/outbound-reliability-contract.md:16 asks for a retry schedule after a failed post. A handler's
  failed post sets none (`AccountService.FailedPostKeepsSchedule`): the row keeps the retry time it had,
  and a new row has none and is due from its minimum age on.
- The retry delay is computed unsigned and added to the clock signed, and the sum need not be an instant.
  The wait holds exactly for the configured delays of `Backoff.AlwaysWaitsIff`; beyond them a setting may
  stop the worker, leave the row in posting or make it due at once (`Backoff.RetryOutcome`). The range of
  instants is that of chrono 0.4.43 (services/accounts-service/Cargo.lock:583-584) and of PostgreSQL; neither is
  part of this model.
- A rate limit of `max` allows 2 max - 1 requests in a stretch as long as the window, not more.
- The `.env` reader and rewriter differ on one kind of line: `export` with only spaces before `=`.

## Model

| member | source | states |
|---|---|---|
| Ledger.LedgerStore.Resolve | services/ledger-service/app/models/ledger_account.rb:24-41 | finds or creates an account; the type of one that exists is kept |
| Ledger.LedgerStore.UpdateBalance | services/ledger-service/app/models/account_balance.rb:18-42 | adds a debit to, or takes a credit from, the one balance, which starts at 0 |
| Ledger.LedgerStore.MarkAsPosted | services/ledger-service/app/models/ledger_transaction.rb:31-33 | sets the status and clears the failure reason of one transaction, and nothing else |
| Ledger.LedgerStore.CompletePosting | services/ledger-service/app/services/ledger_poster.rb:128-144 | the unprotected completion, write by write, leaves exactly a prefix of the seven writes for every crash point, with the refusal of a self-transfer after both accounts are resolved |
| Ledger.LedgerStore.Call | services/ledger-service/app/services/ledger_poster.rb:50-71 | one call of the poster refines `Post`: replay of a posted key, refusal of partial state, completion, or a fresh posting whose writes are all kept or all undone |
| Ledger.LedgerStore.PostTransaction | services/ledger-service/app/grpc/ledger_service.rb:9-84 | `posted` exactly when the poster returned; every other end is a refusal |
| Ledger.LedgerStore.GetAccountBalance | services/ledger-service/app/grpc/ledger_service.rb:86-117 | the stored balance, or 0 for an unknown account or one without a balance |
| LedgerRuns.CallIsPrefix | services/ledger-service/app/services/ledger_poster.rb:120-144 | what a call leaves in the database is a prefix of the completing writes; only the unprotected path can leave a proper one |
| LedgerRuns.CallJournal | services/ledger-service/app/services/ledger_poster.rb:205-258 | a call appends to the journal and bumps balances by prefixes of the same two entries |
| LedgerRuns.CallRows | services/ledger-service/app/services/ledger_poster.rb:50-71 | a call touches at most the transaction row of its own key |
| LedgerRuns.TypesFixed | services/ledger-service/app/models/ledger_account.rb:24-41 | no call changes the type of an account that exists |
| LedgerRuns.CrashSafeRun | services/ledger-service/app/services/ledger_poster.rb:120-144 | over every sequence of calls with every crash point: at most two entries a transaction, balance updates are the journal entries in order and each at most once, a posted transaction has both of both |
| LedgerRuns.EntriesFixed | services/ledger-service/app/services/ledger_poster.rb:128-131 | once a transaction has an entry, no later run adds an entry, a balance update or a row change for it |
| LedgerRuns.StuckForever | services/ledger-service/app/services/ledger_poster.rb:128-131 | if it is not posted either, every later call for it is refused and changes nothing |
| LedgerRuns.EntriesFromOneCall | services/ledger-service/app/services/ledger_poster.rb:205-237 | both entries of a transaction come from one single call and carry its accounts and amount |
| LedgerRuns.AgreementExactly | services/ledger-service/app/models/account_balance.rb:18-50 | one call keeps every balance equal to its journal if and only if it does not die between the first entry and the second balance update |
| LedgerRuns.BalancesAreJournal | services/ledger-service/db/migrate/20250122000004_add_account_types_and_balances.rb:52-67 | over every run without crashes every balance is the sum of debits less credits, as the migration rebuilds it |
| LedgerRuns.RefusedFreshPost | services/ledger-service/app/services/ledger_poster.rb:58-71 | a first posting that is not accepted changes nothing; which ones are accepted |
| LedgerRuns.CleanCall | services/ledger-service/app/services/ledger_poster.rb:50-71 | with no orphan rows a call changes nothing or posts one new transaction in full |
| LedgerRuns.ReplayEquivalence | services/ledger-service/app/services/ledger_poster.rb:52-58 | any request sequence leaves the ledger that the first acceptable request for each key leaves |
| LedgerRuns.FirstPerKeyDistinct | services/ledger-service/app/services/ledger_poster.rb:52-58 | the kept requests are acceptable and have distinct, unseen keys |
| LedgerRuns.FirstPerKeyCovers | services/ledger-service/app/services/ledger_poster.rb:52-58 | the first acceptable request for a key is the kept one |
| LedgerRuns.ReplayVerdicts | services/ledger-service/app/services/ledger_poster.rb:113-126 | which calls of a run succeed, read off the requests alone |
| Verdicts.PostedIsTold | services/ledger-service/app/services/ledger_poster.rb:50-71 | for every ledger, orphans included, and every crash point: the caller is told `posted` exactly when the inputs are valid and the key is posted afterwards; invalid inputs are refused and change nothing |
| Verdicts.OrphanCompletes | services/ledger-service/app/services/ledger_poster.rb:120-144 | a surviving call on an unposted row without entries books both entries and both balances, marks it posted, and says so |
| Verdicts.OrphanSelfTransfer | services/ledger-service/app/services/ledger_poster.rb:195-199 | a self-transfer on such a row is refused with nothing booked |
| Verdicts.SurvivorAnswers | services/ledger-service/app/services/ledger_poster.rb:50-71 | a process that lives gives a verdict |
| Verdicts.RpcIsTold | services/ledger-service/app/grpc/ledger_service.rb:27-52 | for every ledger an RPC says `posted` exactly if all fields are there, amount, environment and currency are as demanded, and the key is posted afterwards |
| Verdicts.AcceptedIff | services/ledger-service/app/services/ledger_poster.rb:113-118 | in a ledger without orphans, which requests are answered with `posted`, in terms of their fields; all others change nothing |
| TrialBalance.OneDebitOneCreditIff | services/ledger-service/app/services/ledger_poster.rb:260-306 | the pair is one debit and one credit iff a transfer has equal, and a deposit or withdrawal opposite, normal sides |
| TrialBalance.ClearingToCustomerUnbalanced | services/ledger-service/app/services/ledger_poster.rb:260-306 | a posting from bank clearing to a customer is accepted and books two credits |
| TrialBalance.CashToPoolUnbalanced | services/ledger-service/app/services/ledger_poster.rb:260-306 | a posting from cash control to a custom pool is accepted and books two debits |
| TrialBalance.FeeAsDestination | services/ledger-service/app/services/ledger_poster.rb:164-177 | fee income first used as a destination is income, and the payment balances |
| TrialBalance.FeeAsSourceFirst | services/ledger-service/app/services/ledger_poster.rb:156-177 | fee income first used as a source is an asset for good, and the same payment then books two debits |
| TrialBalance.ChangeShows | services/ledger-service/app/models/ledger_account.rb:43-54 | whatever its type, an account shows more by the amount after an increase and less after a decrease |
| TrialBalance.ShapeEntries | services/ledger-service/app/services/ledger_poster.rb:205-237 | each of the three request shapes of accounts-service debits its source and credits its destination |
| TrialBalance.BalancedRun | services/ledger-service/app/services/ledger_poster.rb:205-258 | over every run of the three shapes, crashes included, the balances of an organisation, environment and currency sum to zero |
| TrialBalance.CashCoversCustomers | services/ledger-service/app/models/ledger_account.rb:43-54 | and cash control shows exactly what all customers together see |
| Books.BooksBalance | services/ledger-service/app/services/ledger_poster.rb:205-258 | so in every reachable state, under no hypothesis, the books balance and every balance is its journal |
| Outbox.TransactionTable.CreateOrGetByIdempotency | services/accounts-service/src/repositories/transaction_repository.rs:54-118 | returns the row of the key, inserted if there was none, and which fields an inserted row has |
| Outbox.TransactionTable.TryClaimPendingForPost | services/accounts-service/src/repositories/transaction_repository.rs:271-289 | succeeds exactly on a pending row, makes it posting from now without a reason, and keeps all else |
| Outbox.TransactionTable.ReclaimStalePostingRows | services/accounts-service/src/repositories/transaction_repository.rs:292-330 | exactly the rows in posting for longer than the lease, of the environment if one is given, are pending again; every field is spelt out |
| Outbox.TransactionTable.ClaimPendingForLedgerPost | services/accounts-service/src/repositories/transaction_repository.rs:334-410 | after the reclaim, the claimed rows are the oldest eligible ones, as many as the limit allows, each with one attempt more; no other row changes |
| Outbox.TransactionTable.OldestLeft | services/accounts-service/src/repositories/transaction_repository.rs:349-358 | the oldest eligible row not yet taken, if any |
| Outbox.TransactionTable.SetStatus | services/accounts-service/src/repositories/transaction_repository.rs:412-441 | unconditional on the current status; status, reason and time are set, all else is kept; reports a missing row |
| Outbox.TransactionTable.SetRetry | services/accounts-service/src/repositories/transaction_repository.rs:443-469 | back to pending with a time before which it is not due; every field is spelt out |
| Outbox.TransactionTable.SetTerminalFailure | services/accounts-service/src/repositories/transaction_repository.rs:471-495 | failed, with no retry time and the time of failure; every field is spelt out |
| Outbox.TransactionTable.RequeueStaleRows | services/accounts-service/src/repositories/transaction_repository.rs:18-31 | returns the number of rows it changed |
| Outbox.TransactionTable.FailAgedRows | services/accounts-service/src/repositories/transaction_repository.rs:33-49 | returns the number of rows it changed |
| Outbox.TransactionTable.ReconcileStaleTransactions | services/accounts-service/src/repositories/transaction_repository.rs:10-52 | the two numbers are how many rows each statement changed; afterwards nothing is stale or over age, and no posted or failed row was touched |
| OutboxRuns.SweepClears | services/accounts-service/src/repositories/transaction_repository.rs:18-51 | afterwards no lease is over and nothing has aged out; rows to which neither applied are untouched; what failed was old enough and attempted |
| OutboxRuns.SweepTakesBothSteps | services/accounts-service/src/repositories/transaction_repository.rs:18-49 | when a stale row fails in the same sweep, and that it keeps the first reason |
| OutboxRuns.SweepTwice | services/accounts-service/src/repositories/transaction_repository.rs:10-52 | a second sweep at the same instant changes no row in either statement |
| OutboxRuns.ReclaimClears | services/accounts-service/src/repositories/transaction_repository.rs:292-330 | afterwards no lease of the environment is over; each row whose lease was over is pending from now with count and retry time kept, every other row is untouched |
| OutboxRuns.PollTakesStale | services/accounts-service/src/repositories/transaction_repository.rs:334-410 | a row whose lease is over, whoever held it, is taken by the next poll if it is due, old enough and among the oldest |
| OutboxRuns.ClaimedOnce | services/accounts-service/src/repositories/transaction_repository.rs:271-289 | of two claims of one row only the first takes effect |
| OutboxRuns.ClaimedByRank | services/accounts-service/src/repositories/transaction_repository.rs:349-358 | which rows a claim takes, up to ties of age: by the number of older eligible rows against the limit |
| OutboxRuns.ClaimsDisjoint | services/accounts-service/src/repositories/transaction_repository.rs:334-410 | two claims with no write-back and at most the lease between them share no row |
| OutboxRuns.ClaimsOverlapPastLease | services/accounts-service/src/repositories/transaction_repository.rs:292-330 | one millisecond later they can take the same row |
| OutboxRuns.CreateIsIdempotent | services/accounts-service/src/repositories/transaction_repository.rs:76-101 | keys stay unique, no row changes, a repeat finds the first row |
| LedgerClient.PostTransaction | services/accounts-service/src/ledger_grpc.rs:71-118 | the call is answered, never arrives, or lands unanswered, and is good only when answered with `posted` |
| ExactlyOnce.PlanIsExpected | services/accounts-service/src/services/transaction_retry.rs:138-164 | what the poster books for a row is the pair the row stands for |
| ExactlyOnce.RpcOnRow | services/ledger-service/app/services/ledger_poster.rb:50-71 | a call for a row leaves the ledger alone or lands whole, for the first time; a good verdict means it has landed |
| ExactlyOnce.StepKeepsInv | services/accounts-service/src/services/account_service.rs:260-313 | every step of handlers, worker, reconciler, network, crash and clock keeps the invariant between table, holders, requests on the wire and ledger |
| ExactlyOnce.ExactlyOnceEffect | services/accounts-service/src/services/transaction_retry.rs:96-207 | over every run with honest replays: a posted row has one posted transaction and exactly its own entry pair, any other row has its pair or nothing |
| Deliveries.LedgerIsDelivered | services/accounts-service/src/services/account_service.rs:260-313 | over every run, the ledger is what the poster makes of the requests that reached it, one after another; the list is a function of the steps |
| Deliveries.EffectIffDelivered | services/accounts-service/src/repositories/transaction_repository.rs:33-49 | over every run, a row, whatever its status and so also a failed one, has its ledger effect if and only if an acceptable request for its key was delivered |
| Deliveries.OwnPairIffFirst | services/accounts-service/src/services/account_service.rs:265-277 | over every run, the entries of a landed row are its own pair if and only if the first acceptable request delivered for its key is the one the row stands for |
| Deliveries.OncePerKey | services/ledger-service/app/services/ledger_poster.rb:50-71 | over every run, under no hypothesis, a key has at most one transaction with one debit and one credit of the same amount, or nothing |
| Deliveries.PostedHasPair | services/accounts-service/src/services/account_service.rs:286-295 | over every run, a posted row has its transaction and a pair |
| Deliveries.NoRowNothingBooked | services/ledger-service/app/services/ledger_poster.rb:50-71 | over every run, nothing is booked under a key that has no row |
| CrossService.PairIsShare | services/accounts-service/src/handlers/transactions.rs:73-88 | the pair of a row moves a customer balance by the delta accounts-service shows for it |
| CrossService.CrossServiceAgreement | services/accounts-service/src/handlers/transactions.rs:73-88 | over every run with honest replays the negated ledger balance of a customer is the sum of the deltas of its landed rows |
| Lease.LeaseExclusivity | services/accounts-service/src/repositories/transaction_repository.rs:271-410 | over every timely run a row has at most one live holder, whose row is posting and whose lease has not run out |
| Lease.TerminalRowsAreFinal | services/accounts-service/src/repositories/transaction_repository.rs:412-495 | over every timely run posted and failed rows never change again, although the statements do not look at the status |
| LeaseBound.FinalIffFits | services/accounts-service/src/repositories/transaction_repository.rs:427-429 | when every row is worked off within a bound, and whatever else is assumed: posted and failed rows are final in all runs if and only if a full batch at that bound fits into the lease |
| LeaseBound.ExclusiveIffFits | services/accounts-service/src/services/transaction_retry.rs:79-89 | a row has at most one live holder in all of them if and only if it does |
| LeaseBound.ShippedSettings | services/accounts-service/src/services/transaction_retry.rs:26-37 | a batch of 200 and a lease of 600 seconds fit exactly up to 3 seconds a row |
| LeaseBound.ShippedTimeoutOverwrites | services/accounts-service/src/ledger_grpc.rs:22-27 | at 60 seconds a call, an honest, prudent and reliable run overwrites a posted or failed row |
| Lease.RetryCountIsClaims | services/accounts-service/src/repositories/transaction_repository.rs:388-396 | over every run the retry count of a row is the number of worker claims of it |
| Lease.RetryBudget | services/accounts-service/src/services/transaction_retry.rs:176-204 | over every timely run it is at most the maximum plus the lease expiries of the row, and below that while pending |
| Reliable.ReliableBudget | services/accounts-service/src/services/transaction_retry.rs:176-204 | with handlers, worker and reconciler interleaved at will but no crash and no lost write-back, no lease expires and the maximum bounds the claims of every row |
| Overdraft.NoOverdraft | services/accounts-service/src/services/account_service.rs:353-382 | over every honest, timely, prudent and prompt run, in which no debit of the account was outstanding at any instant from the balance read to the insert: no customer balance is negative and each outstanding debit is covered, so a retry need not check again |
| OverdraftRuns.NeverOverdrawnIff | services/accounts-service/src/services/account_service.rs:353-382 | when every row is worked off within a bound: no customer balance is negative in any run if and only if replays are honest, admission is prudent, landings are prompt, and a full batch fits into the lease |
| Protocol.ClearIsExact | services/accounts-service/src/services/account_service.rs:370-403 | the record of a balance read stays clear while, and only while, no step leaves a debit of the account outstanding |
| CounterRuns.PostedRowOverwritten | services/accounts-service/src/repositories/transaction_repository.rs:427-429 | without the lease bound: a run in which a posted row becomes pending again |
| CounterRuns.MismatchedReplay | services/accounts-service/src/services/account_service.rs:265-277 | whatever else is assumed, without honest replays: a posted row of 100 whose entries say 5 |
| CounterRuns.FailedRowLanded | services/accounts-service/src/repositories/transaction_repository.rs:33-49 | whatever else is assumed: a failed row with its full ledger effect |
| OverdraftRuns.TwoWithdrawalsOverdraw | services/accounts-service/src/services/account_service.rs:534-559 | whatever else is assumed, without prudent admission: two debits admitted against one balance overdraw it |
| OverdraftRuns.CheckThenCreateOverdraws | services/accounts-service/src/services/account_service.rs:370-403 | nothing outstanding at the balance read and nothing at the insert is not enough: a debit admitted and posted in between overdraws the account |
| Worker.ProcessTask | services/accounts-service/src/services/transaction_retry.rs:152-205 | one row: posted, given up, or scheduled with the delay of its attempt as cast; a failed or refused write is ignored, and a retry time that is no instant stops the worker |
| Worker.ProcessClaimedLedgerPosts | services/accounts-service/src/services/transaction_retry.rs:96-207 | the batch, in order, on table and ledger in place, up to the row that stops the worker |
| Worker.PollOnce | services/accounts-service/src/services/transaction_retry.rs:73-93 | reclaim, claim, then the batch |
| Worker.FailedCallWaits | services/accounts-service/src/services/transaction_retry.rs:176-203 | after a failed call: failed for good with no attempt left; else, by the delay and the instant, due exactly when the delay is over, due at once, or stuck in posting with the worker stopped or the write refused |
| WorkerResults.SucceededCall | services/accounts-service/src/services/transaction_retry.rs:166-175 | after a call that succeeds the worker goes on; the row is posted without a reason if the write is stored, and as it was if not; no other row changes |
| WorkerResults.StoppedIff | services/accounts-service/src/services/transaction_retry.rs:188-193 | the worker has stopped within a batch if and only if a failed call with an attempt left had a retry time that is no instant |
| WorkerResults.BatchPosts | services/accounts-service/src/services/transaction_retry.rs:96-207 | if no row stops it, every row of the batch whose call succeeded and was stored is posted in the end |
| WorkerResults.OutsideBatch | services/accounts-service/src/services/transaction_retry.rs:101-206 | rows outside the batch are as they were |
| WorkerRuns.PollIsRun | services/accounts-service/src/services/transaction_retry.rs:73-93 | a poll, whatever becomes of its calls and write-backs, is a run of the protocol, legal under every hypothesis its clock and fates meet, timeliness and reliability among them |
| AccountService.ResolveAndPost | services/accounts-service/src/services/account_service.rs:260-313 | create or get, claim, post and write back, on table and ledger in place |
| AccountService.ResolveImmediateLedgerPost | services/accounts-service/src/services/account_service.rs:25-44 | a row seen as not pending is returned as seen; a pending one is claimed, or, when another holder was faster, returned as it now stands |
| AccountService.MoneyWithIdempotency | services/accounts-service/src/services/account_service.rs:318-472 | one money request with its checks, its early returns, its overdraft check on new debits only, and its posting |
| AccountService.PreparedIff | services/accounts-service/src/services/account_service.rs:486-532 | exactly which requests pass the checks, and what they then ask for |
| Answers.ErrorIs | services/accounts-service/src/services/account_service.rs:486-532 | which error a request gets that fails the checks |
| Answers.AnswerIs | services/accounts-service/src/services/account_service.rs:370-382 | a request that passes the checks is accepted if and only if it is not a new debit, or the ledger can be asked and the balance is at least the amount; which error it gets otherwise, and that nothing changes then |
| Answers.RejectedIs | services/accounts-service/src/services/account_service.rs:332-346 | a request that fails the checks changes nothing |
| Answers.SucceededPost | services/accounts-service/src/services/account_service.rs:286-295 | after a post that succeeds the returned row is the stored one, posted without a reason and stamped; no other row changes |
| Answers.PostedIffAnswered | services/accounts-service/src/services/account_service.rs:286-313 | an accepted request on a new or pending key returns `posted` exactly when the ledger answered so, and `pending` otherwise |
| Answers.SettledIsReturned | services/accounts-service/src/services/account_service.rs:29-32 | a key whose row is posting, posted or failed is answered with that row and nothing happens |
| AccountService.PostedReplay | services/accounts-service/src/services/account_service.rs:353-367 | a key that is posted answers every replay with the same row and no second effect |
| AccountService.RequestIsRun | services/accounts-service/src/services/account_service.rs:195-316 | every request, from any state, is a run of the protocol, legal under every hypothesis it meets; under none it may replay a key with other parameters and withdraw beside another debit |
| AccountService.FailedPostKeepsSchedule | services/accounts-service/src/repositories/transaction_repository.rs:427-429 | after a failed immediate post the row keeps the retry time it had; exactly when it is due, and that it has a schedule if and only if it had one |
| AccountService.FirstFailureIsUnscheduled | services/accounts-service/src/services/account_service.rs:296-310 | the first post of a new key that fails leaves no retry time; the row is due from the minimum age on |
| Termination.PollRefused | services/accounts-service/src/services/transaction_retry.rs:176-204 | a poll whose calls all fail uses one attempt of each row it took, and fails those that had one left |
| Termination.GivesUp | services/accounts-service/src/services/transaction_retry.rs:176-204 | over any number of such polls the attempts left in the table fall by one a claim; a row has failed exactly when its attempts are used up |
| Reliable.GivesUpInRun | services/accounts-service/src/services/transaction_retry.rs:176-204 | with handlers, worker and reconciler interleaved, no call confirmed, no crash and no lost write-back: a row nobody works on has failed once the worker claimed it as often as allowed, and is pending with an attempt left or failed before |
| OverdraftRuns.LateLandingOverdraws | services/accounts-service/src/services/account_service.rs:296-310 | whatever else is assumed, without prompt landings: a request lands after its call failed, its row was given up and another debit was posted |
| OverdraftRuns.ReplayOverdraws | services/accounts-service/src/services/account_service.rs:353-382 | whatever else is assumed, without honest replays: a pending withdrawal of 100 replayed with 1000 skips the balance check and leaves -900 |
| OverdraftRuns.LongBatchOverdraws | services/accounts-service/src/services/transaction_retry.rs:79-89 | whatever else is assumed, when a batch does not fit into the lease: the last call goes out within its time but after its row was given up, and lands after another debit was posted |
| History.ListAccountTransactions | services/accounts-service/src/handlers/transactions.rs:132-139 | the loop computes the backward walk |
| History.WalkReconstructs | services/accounts-service/src/handlers/transactions.rs:132-139 | each value is the forward sum up to that transaction, off by what was skipped and by what the start was off; exact on the newest page with the right start |
| History.ListedBalances | services/accounts-service/src/handlers/transactions.rs:106-139 | in every reachable state the listing is exact if and only if rows landed but not marked posted have no net effect |
| History.UniqueAccounts | services/accounts-service/src/handlers/transactions.rs:180-186 | the accounts of the page, each with its currency |
| History.FetchBalances | services/accounts-service/src/handlers/transactions.rs:188-214 | each account once, whatever the order, first currency wins |
| History.WalkPage | services/accounts-service/src/handlers/transactions.rs:216-234 | the map-updating pass computes the walk over the page |
| History.ListTransactions | services/accounts-service/src/handlers/transactions.rs:177-234 | the three parts together |
| History.FetchedHits | services/accounts-service/src/handlers/transactions.rs:219-233 | on a fetched page no lookup falls back to 0 |
| History.OrgWalkRefinesAccountWalk | services/accounts-service/src/handlers/transactions.rs:219-234 | for each account the pass shows exactly what that account's own walk shows |
| History.PageBalances | services/accounts-service/src/handlers/transactions.rs:177-234 | in every reachable state a page of the organisation shows an account its posted history, off by the unconfirmed effect and by what earlier pages hold |
| History.FirstPageExactIff | services/accounts-service/src/handlers/transactions.rs:177-234 | page 1 is exact if and only if the unconfirmed effect is zero |
| History.RowsAreRegular | services/ledger-service/app/services/ledger_poster.rb:195-199 | in every reachable state a posted transfer has distinct ends, as the refinement needs |
| History.SelfTransferBreaksPass | services/accounts-service/src/handlers/transactions.rs:227-233 | otherwise the pass would count the amount twice |
| Backoff.DelayIsIdeal | services/accounts-service/src/services/transaction_retry.rs:66-70 | the saturating 64-bit computation is the capped doubling over unbounded integers |
| Backoff.DelayBounds | services/accounts-service/src/services/transaction_retry.rs:66-70 | the delay never falls with the attempt, nor below the base, nor above the cap |
| Backoff.WaitsIff | services/accounts-service/src/services/transaction_retry.rs:188-193 | an attempt waits at least the base delay if and only if the delay ends at an instant the date library has; if it does not and there is a retry time, that lies in the past |
| Backoff.AlwaysWaitsIff | services/accounts-service/src/services/transaction_retry.rs:48-63 | the configured delays for which, at an instant, every attempt does |
| Backoff.RetryOutcome | services/accounts-service/src/services/transaction_retry.rs:188-193 | by delay and instant, exactly when the retry time lies ahead, lies in the past, is refused by the database, or stops the worker |
| Backoff.LongBaseStopsWorker | services/accounts-service/src/services/transaction_retry.rs:48-55 | a base delay of 10^16 milliseconds is accepted, and its first retry stops the worker |
| Backoff.LargestBaseIsDueAtOnce | services/accounts-service/src/services/transaction_retry.rs:48-55 | the largest base delay the service accepts makes the row due one millisecond before it failed |
| RateLimit.RateLimiter.Allow | services/accounts-service/src/routes/rate_limit.rs:32-50 | one request against the window of its client, in place; no other client is touched |
| RateLimit.RateLimiter.Reset | services/accounts-service/src/routes/rate_limit.rs:52-54 | forgets every client |
| RateLimit.ClientsAreIndependent | services/accounts-service/src/routes/rate_limit.rs:32-50 | a client's verdicts depend on its own requests only |
| RateLimit.AtMostTwiceLessOne | services/accounts-service/src/routes/rate_limit.rs:32-50 | any interval no longer than the window allows at most 2 max - 1 requests, and max if it covers the first one |
| RateLimit.AtMostMaxPerWindow | services/accounts-service/src/routes/rate_limit.rs:39-49 | every window the limiter opens lets at most the maximum through |
| RateLimit.RefusedIff | services/accounts-service/src/routes/rate_limit.rs:39-49 | a request is refused if and only if the maximum was allowed since the request that opened its window, the windows read off the times alone |
| RateLimit.StoreIsWindows | services/accounts-service/src/routes/rate_limit.rs:32-50 | whatever other clients ask, the stored window of a client is the one its own requests give |
| RateLimit.NothingWithoutQuota | services/accounts-service/src/routes/rate_limit.rs:44-46 | a maximum of 0 allows nothing |
| RateLimit.BoundIsReached | services/accounts-service/src/routes/rate_limit.rs:39-49 | 2 max - 1 is reached for every maximum and window of at least 1 |
| Dotenv.ParseDotenv | scripts/lib/neon_bootstrap.py:54-69 | the reader's loop computes the last value of each key |
| Dotenv.MergeWriteEnv | scripts/lib/neon_bootstrap.py:493-517 | the rewriter's two loops compute the merged text |
| Dotenv.SameKeyOnEveryLine | scripts/lib/neon_bootstrap.py:483-490 | reader and rewriter name the same key on every line, but for a bare export before `=` |
| Text.SplitAtBreak | scripts/lib/neon_bootstrap.py:54-59 | a line ends at the first break, and a carriage return with a line feed is one |
| DotenvMerge.QuotedReads | scripts/lib/neon_bootstrap.py:66-68 | a value in quotes of either kind reads as what is between them, spaces included |
| DotenvMerge.SetsNoKey | scripts/lib/neon_bootstrap.py:483-490 | comments, blank lines and lines without `=` set no key |
| DotenvMerge.MergedLines | scripts/lib/neon_bootstrap.py:503-515 | a line that sets no updated key stays where it is letter for letter, one that does becomes the assignment, and after them comes one for each key no line sets |
| DotenvMerge.AddedInOrder | scripts/lib/neon_bootstrap.py:513-515 | the added lines come in the order of the dictionary |
| DotenvMerge.MergedText | scripts/lib/neon_bootstrap.py:517 | the written text has the merged lines, without space at its end and blank lines there |
| DotenvMerge.MergeOverrides | scripts/lib/neon_bootstrap.py:493-517 | reading the merged text gives the old reading overridden by the updates |
| DotenvMerge.MergeOverridesIff | scripts/lib/neon_bootstrap.py:483-517 | for all texts, if and only if `export` is not an updated key |
| DotenvMerge.MergeTwice | scripts/lib/neon_bootstrap.py:493-517 | a second merge leaves the text as it is |

## Left out

- Transport, connection caching and real timeouts: a call is answered, never arrives, or lands unanswered.
- Isolation of the database: a statement is one atomic step, and the poster's calls are serial. So the
  read-modify-write of a balance without a row lock
  (services/ledger-service/app/models/account_balance.rb:18-42) does not race here, and the loser of the race
  for the unique key (services/ledger-service/db/schema.rb:74) is a refused call. The worker's method claims
  the oldest rows; the protocol's claim may pass over any row that another transaction has locked.
- Errors of the database in a handler, other than a write-back that is lost; in the worker, a failed claim, and a restart after it stopped.
- The protocol theorems let ledger calls run to their end or not at all. By `LedgerRuns.CleanCall` that is no
  loss: without an orphan row, and the poster never leaves one, a call that dies has changed nothing. What happens
  on the unprotected path, to an orphan row from elsewhere, is the subject of `LedgerRuns` and `Verdicts`.
- Clocks: accounts-service and its database share one clock, in whole milliseconds since 1970, that never goes back.
- 32-bit and 64-bit overflow of amounts, balances and counts; only the retry delay models its saturation and its cast.
- A row's `description`, `external_recipient_id` and `reference_id`, and the messages of ledger refusals: a refused
  call has one fixed reason.
- Worker.ProcessClaimedLedgerPosts: takes rows that have an environment; for a row without one the worker looks the
  account up and may release the row (services/accounts-service/src/services/transaction_retry.rs:102-136).
- Currency normalisation and the mapping of environments to the wire: requests carry the normalised values, and
  one account is asked about in its own currency.
- Parsing of balances sent as text, and response shapes; the amount check of the handlers is part of `Prepare`.
- AccountService.ResolveAndPost: runs alone on its table, so its claim is never lost; `ResolveImmediateLedgerPost` has
  that branch, and the protocol's steps cover interleavings.
- Termination.GivesUp: looks at polls alone from a table without posting rows; `Reliable.GivesUpInRun` has handlers and
  reconciler between polls, and says when a row has failed but not how soon.
- AccountService.MoneyWithIdempotency: models deposit, withdrawal and transfer as one method with a kind, because the
  three differ only in the account checks and in the overdraft check.
- Dotenv.MergeWriteEnv: takes the two texts and returns the new one; reading and writing files is left out.
- OutboxRuns.ClaimedByRank: leaves the choice among rows of equal age open, as the statement does.
- The paginated query behind the organisation's listing and the limit of an account's listing: the walks take any
  newest-first list. Ties of `created_at` are not ordered.
- `mark_as_failed!`, control-account creation, batch balance reads, audit events, logging and error reporting.
- The client key of the rate limiter, account numbers, users-service, audit-service, and the Neon and health scripts.
