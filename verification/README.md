# Ledgerlock: verified model of the concurrent transfer protocol

Ledgerlock records every movement of money as one DEBIT and one CREDIT and computes balances from these
entries. It runs on snapshot-isolated MongoDB transactions, which do not by themselves prevent two
concurrent debits from overdrawing an account (write skew). This project models the protocol that prevents
it, proves what every interleaving of any number of requests guarantees, shows that both of its mechanisms
are necessary, and proves the reconciliation report exact.

`dafny verify dfyconfig.toml` checks everything with Dafny 4.11.

## Layout

| file | what it models |
|---|---|
| `Domain.dfy` | accounts, headers, entries, the sign convention, the field constraints (`app/models`, validators in `app/core/db.py`) |
| `Specification.dfy` | the sequential ledger: `Decide` (what a request is answered when it runs alone), `AtomicTransfer` (its effect), `Sound` (what a ledger must satisfy) |
| `Protocol.dfy` | the step machine: one database operation of one call per step, snapshots, staged writes, conflicts, commits, retries, with `Design` switching each mechanism on or off |
| `Invariant.dfy` | the inductive invariant of the full design |
| `Guarantees.dfy` | refinement, linearizability, no overdraft, exactly once, all or nothing, shape of the ledger |
| `Contention.dfy`, `Progress.dfy` | which calls can disturb each other; a schedule that finishes everything always exists |
| `Admission.dfy` | exact outcomes of competing debits and of repeated submissions |
| `Outcomes.dfy` | which answers occur: a call alone gets what the specification decides, and how a race for a key can end |
| `Refusals.dfy` | a debit does not see credits that commit after its snapshot: when a refusal is unnecessary |
| `Necessity.dfy`, `Separation.dfy` | the controls: runs that go wrong without either mechanism; what the serialisation write achieves alone, and so exactly when each guarantee fails |
| `Aggregation.dfy`, `Reconciliation.dfy`, `Audit.dfy` | `$group` aggregations, the balance service, the report, tamper detection, the report over runs |
| `Boundary.dfy` | the two routes that submit requests and the balance of the SYSTEM account |
| `Provisioning.dfy`, `AccountService.dfy` | `ensure_system_accounts` by many replicas: as a step machine, and as the imperative loop |
| `LedgerService.dfy` | `create_transfer` and `_apply_transfer` as imperative code over a shared database, proved to follow the machine |

How the database is modelled. A transaction reads the version that was current at its first operation plus
its own writes. Writing an account document is a transient conflict if another open transaction has staged a
write to it or a version after the snapshot wrote it. Inserting a key is a transient conflict if another open
transaction has staged it; if it was committed after the snapshot, either a transient conflict or a
DuplicateKeyError is possible. Commit publishes all staged writes as one version, abort discards them. A call
may give up with WRITE_CONFLICT whenever it has been aborted at least once. Object ids are fresh numbers. The
fields `hist`, `log`, `since`, `point` and `ended` of the machine record history; no step reads them except
that the length of `log` serves as the version number.

Two places where the code says more than its documentation. `ReconciliationReport.balanced` is described as
"net is zero for every currency" while the code also tests the global net; `ReportIsExact` shows that the
global test adds nothing. The pre-check comment in `_apply_transfer` leaves the guarantee to the key index
alone; for a USER source the serialisation write separates repeated submissions too (`SerialisationSeparates`),
so without the index a request can be applied twice only if its source is a SYSTEM account or that write is
missing as well (`RepeatedExactly`).

## Model

| member | source | states |
|---|---|---|
| Domain.CreatedEntriesAreAdmitted | app/models/ledger_entry.py:174-210 | creating an entry fails exactly if its amount is not positive or its currency is malformed, and the collection validator admits exactly what can be created |
| Specification.ValidationIsExact | app/services/ledger_service.py:134-183 | each validation error occurs exactly under its condition on the two account documents, and none exactly if both exist, are ACTIVE and have the request's currency |
| Specification.DecisionIsExact | app/services/ledger_service.py:341-355 | a request alone is accepted exactly if its key is new, its accounts are usable, a USER source holds the amount and its fields are well formed; each error has its exact condition, insufficient funds with balance and shortfall |
| Specification.TransferIsExact | app/services/ledger_service.py:276-320 | an accepted transfer adds one header with the arguments of the call and its DEBIT and CREDIT, moves the amount and no other balance, and changes no document but a USER source's counter |
| Specification.TransferKeepsSound | app/services/ledger_service.py:186-327 | any accepted transfer under a fresh id keeps keys and ids unique, every header paired with its two entries, counters equal to committed debits, and every USER balance at or above zero |
| Specification.OpeningKeepsSound | app/services/account_service.py:35-67 | opening a USER account, or a SYSTEM account the partial index admits, keeps the ledger sound |
| Invariant.SourceIsStable | app/services/ledger_service.py:245-271 | while a call holds its USER source, no other debit of it has committed since the call's snapshot, the document is unchanged, and the balance it checked is still covered |
| Invariant.CommitIsAtomic | app/services/ledger_service.py:199-204 | at commit the request is acceptable at the current version, not only at the older snapshot it was checked on, and publishing the staged writes is exactly the atomic transfer |
| Invariant.EntryIndexNeverFires | app/services/ledger_service.py:391-396 | the (transaction_id, direction) index never rejects an insert of a transfer, so a DuplicateKeyError can only mean the idempotency key |
| Invariant.StepKeepsInv | app/services/ledger_service.py:186-327 | every step of every call, and every account opening, keeps the invariant |
| Invariant.ReachableInv | app/services/ledger_service.py:366-389 | every interleaving of any number of calls from any sound ledger stays inside the invariant |
| Invariant.VersionIsSound | app/core/db.py:394-427 | every version of every run is sound |
| Guarantees.NoRunOverdraws | app/services/ledger_service.py:38-49 | in every version of every run, every USER account's balance is at least zero |
| Guarantees.AccountsCanBeOpened | app/services/account_service.py:35-67 | at any point of a run an account can be opened for any owner and currency, and a SYSTEM account exactly if its currency has none |
| Guarantees.InactiveAccountStaysPut | app/services/ledger_service.py:161-171 | from a version on in which an account is not ACTIVE, no committed transfer names it and its balance does not change |
| Guarantees.RefinesSequentialLedger | app/services/ledger_service.py:384-389 | the committed database is the sequential execution of the successful requests in commit order, each legal at its commit point, and successes and commits correspond one to one |
| Guarantees.Linearizable | app/services/ledger_service.py:341-355 | every answer other than WRITE_CONFLICT is the one the sequential ledger gives at one instant between submission and answer |
| Guarantees.ExactlyOnce | app/core/db.py:394-403 | each idempotency key has at most one committed header and at most one success |
| Guarantees.DuplicateIsSound | app/services/ledger_service.py:222-229 | DUPLICATE_SUBMISSION is answered only when a header with that key is committed, whichever detector found it |
| Guarantees.OnlyCommitsPublish | app/services/ledger_service.py:201-203 | no step of a call but its commit changes the committed state or any other call |
| Guarantees.AbortDiscardsAll | app/services/ledger_service.py:347-354 | a call that waits for a retry or has been answered holds no staged write |
| Guarantees.AttemptsCountCallbackRuns | app/services/ledger_service.py:127-131 | the attempt counter is the number of times the schedule ran the callback |
| Guarantees.AllOrNothing | app/services/ledger_service.py:341-355 | a call that raises contributes no commit however often it was aborted; one that returns contributes exactly one, with `attempts` equal to the callback runs |
| Guarantees.DoubleEntry | app/services/ledger_service.py:297-320 | in every version, each header owns exactly two entries: a DEBIT on its source and a CREDIT on its destination with its amount and currency |
| Guarantees.LedgerIsAppendOnly | app/services/ledger_service.py:1-5 | committed headers and entries are a prefix of all later ones |
| Guarantees.CounterCountsCommittedDebits | app/services/ledger_service.py:251-258 | the serialisation counter of a USER account is the number of its committed debits, and a SYSTEM account never acquires one |
| Contention.BusySourceHasRival | app/services/ledger_service.py:253-258 | a write conflict on the source means another call debits the same USER account, and is still unanswered or committed after this call's snapshot |
| Contention.BusyKeyHasRival | app/services/ledger_service.py:292-295 | a conflict on the key, of either kind, means another call uses the same key, and is still unanswered or committed after this call's snapshot |
| Contention.NewAbortHasRival | app/services/ledger_service.py:384-389 | whenever a step aborts a call, a call that is still unanswered or committed after the snapshot shares its USER source or its key |
| Contention.AbortedHasConcurrentRival | app/services/ledger_service.py:384-389 | every call that was ever aborted has a rival that shares its USER source or its key and was concurrent with it: at some point of the run both were unanswered |
| Contention.NoSharingNoRetry | app/services/ledger_service.py:57-61 | a call that shares neither a USER source nor a key with any concurrent call never gives up and takes at most one attempt, whatever else runs before, beside or after it |
| Progress.SomeoneUnobstructed | app/services/ledger_service.py:253-295 | as long as calls are pending, one of them needs nothing that another holds, since the source is always taken before the key |
| Progress.RunAlone | app/services/ledger_service.py:384-389 | an unobstructed call that runs alone is answered without giving up, in no more steps than its measure, which is at most 15 |
| Progress.EveryoneCanFinish | app/services/ledger_service.py:384-389 | from every state of the invariant a schedule answers all pending calls, none with WRITE_CONFLICT, and changes no earlier answer |
| Progress.NoDeadlock | app/services/ledger_service.py:384-389 | every run, however it went, can be continued to a state in which all calls are answered |
| Admission.CompetingDebits | tests/concurrency/test_overdraft.py:149-190 | competing debits of any sizes, submitted at any time, when no other commit touches the account meanwhile: the final balance is the opening one less the winners' amounts, it is not negative, every loser is refused for insufficient funds, and every refused amount exceeds the final balance |
| Admission.ExactAdmission | tests/concurrency/test_overdraft.py:49-103 | N competing debits of one amount against balance B end in exactly min(N, B div amount) successes and the corresponding balance |
| Admission.ContestCanBeHeld | tests/concurrency/test_overdraft.py:519-584 | whenever debits compete and the other unanswered calls keep out, a schedule answers all of them without WRITE_CONFLICT |
| Admission.AppliedExactlyOnce | tests/concurrency/test_idempotency.py:41-110 | N submissions of one acceptable request, when no other commit uses its key or debits its USER source meanwhile, end in exactly one success and N - 1 DUPLICATE_SUBMISSION, never in insufficient funds caused by the original |
| Admission.ReplayCanBeHeld | tests/concurrency/test_idempotency.py:41-110 | whenever such submissions wait and the other unanswered calls leave the request alone, a schedule answers all of them without WRITE_CONFLICT |
| Refusals.RefusalIsConservative | app/services/ledger_service.py:65-72 | a debit that passes the balance check is covered by the current balance; one that is refused is covered exactly if credits committed since its snapshot make up the shortfall |
| Refusals.RefusedThoughCovered | app/services/ledger_service.py:65-72 | from every sound ledger with a short debit and an acceptable credit that makes up its shortfall, a run refuses the debit although the credit was committed before |
| Outcomes.AloneAnswersDecide | app/services/ledger_service.py:330-429 | a request that runs alone is answered in one attempt with exactly what the sequential specification decides, and has exactly that effect |
| Outcomes.KeyRaceOutcomes | app/services/ledger_service.py:391-429 | a funding that loses a race for its key after the pre-check can end with DUPLICATE_SUBMISSION from the unique index, and can end with WRITE_CONFLICT |
| Necessity.CommitTogether | app/services/ledger_service.py:18-31 | calls that no mechanism of the design sets against each other can all check the same version and all commit |
| Necessity.WriteSkew | tests/concurrency/test_overdraft.py:323-456 | without the serialisation write, from every sound ledger: any number of debits of any amounts, each acceptable alone, can all commit |
| Necessity.OverdraftWithoutSerialisation | app/services/ledger_service.py:18-31 | for every balance B, amount a up to B and N keys there is such a run that ends at B - N * a |
| Necessity.DuplicateApplication | tests/concurrency/test_idempotency.py:182-300 | without the key index, from every sound ledger: N submissions of one key can all be applied |
| Separation.SerialisationSeparates | app/services/ledger_service.py:245-263 | with the serialisation write, and with or without the key index, no interleaving overdraws a USER account or applies two debits of one USER account under one key |
| Separation.OverdrawnExactly | app/services/ledger_service.py:11-31 | when debits of any amounts, each acceptable alone, exceed a USER balance together, a run that overdraws it exists if and only if the serialisation write is missing |
| Separation.RepeatedExactly | app/services/ledger_service.py:211-220 | without the key index, a run that applies one acceptable request twice exists if and only if the serialisation write is missing or the source is a SYSTEM account |
| Aggregation.GroupIsExact | app/services/reconciliation.py:160-194 | `$group` yields a row exactly for the values that occur, and each row is the aggregate of the matching entries |
| Aggregation.PartitionsAgree | app/services/reconciliation.py:74-120 | the sums per transaction, per account and per currency each total to the global net |
| Aggregation.ComputedBalanceIsExact | app/services/balance_service.py:68-136 | for every list of entries: the computed balance is the sum of the account's signed amounts, the credited and debited totals are the sums of its CREDIT and of its DEBIT magnitudes, the count is the number of its entries, and on validated entries the balance is credited less debited |
| Aggregation.SumsFitInLong | app/models/common.py:43-64 | with amounts up to 10^12, every partial sum of up to 9,223,372 entries in any order, whether net, credited or debited, fits a signed 64-bit integer |
| Reconciliation.GatheredFieldsAreExact | app/services/reconciliation.py:238-272 | the same field by field when every read sees a version of its own: each field is exact for the version it was read from |
| Reconciliation.ReportIsExact | app/services/reconciliation.py:238-272 | on one snapshot, what each field means: the net is the sum of all signed amounts, there is a figure for exactly the currencies that occur and it is the sum of their entries, the counts are exact, and `balanced` is that every currency nets to zero |
| Reconciliation.HealthyIffSound | app/services/reconciliation.py:253-259 | for every ledger, `healthy` holds if and only if every entry has a header, every transaction is one DEBIT and one CREDIT that cancel out, every currency nets to zero, and no USER account is negative |
| Reconciliation.CleanPairHasOneAmount | app/core/db.py:236-249 | on validated entries, one DEBIT and one CREDIT cancel out exactly if they have the same amount |
| Reconciliation.HealthyCounts | app/services/reconciliation.py:33-44 | a healthy ledger has at most twice as many entries as transactions, with equality exactly if every header has entries |
| Reconciliation.DeletionIsDetected | tests/concurrency/test_reconciliation.py:341-375 | deleting any one entry of a healthy ledger makes the report unhealthy: the net and the figure of the entry's currency are minus its signed amount, all other figures are zero, and exactly one transaction is unbalanced |
| Reconciliation.InsertionIsDetected | app/services/reconciliation.py:142-194 | so does inserting, anywhere, any one entry that the validator admits, with the net and the figure of its currency equal to its signed amount |
| Reconciliation.ReplacementIsDetectedExactly | app/core/db.py:185-251 | replacing one entry by another admitted one stays undetected exactly if only its account changes and no USER account becomes negative |
| Audit.SoundLedgerIsHealthy | app/services/reconciliation.py:1-25 | every sound ledger passes every check, with exactly two entries per transaction |
| Audit.BalanceTellsTransactions | app/services/balance_service.py:106-136 | in every version of every run the computed totals are what committed transactions paid into and out of the account, and the balance their difference |
| Audit.EverySnapshotReconciles | app/services/reconciliation.py:275-299 | a reconcile on one snapshot at any point of any run is healthy with exactly two entries per transaction |
| Audit.IndependentReads | app/services/reconciliation.py:33-49 | reads from different versions in the code's order are still healthy, and count fewer than two entries per transaction exactly if a transfer committed between the first and the last read |
| Audit.FalseAlarm | app/services/reconciliation.py:33-44 | such a run exists on every sound ledger that accepts a funding request |
| Boundary.CreateTransactionIsExact | app/routes/transactions.py:104-156 | a transfer is admitted exactly if its shape is right, the caller owns the source and the destination exists; another user's source is Forbidden |
| Boundary.FundAccountIsExact | app/routes/accounts.py:191-242 | a funding is admitted exactly if its shape is right, the caller owns the destination and the currency has a SYSTEM account, which is the source |
| Boundary.RoutesAuthorise | app/routes/transactions.py:129-142 | what a route admits is a transfer submitted by the owner of its source, or a funding from a SYSTEM account submitted by the owner of its destination |
| Boundary.ShapeIsExact | app/models/common.py:43-92 | the exact limits of keys, amounts and currencies |
| Boundary.AdmittedIsWellFormed | app/routes/transactions.py:104-156 | admitted requests keep these limits and are never malformed for the ledger |
| Boundary.RoutesFitKind | app/routes/transactions.py:129-156 | a request admitted by a route debits a SYSTEM account if and only if it is a funding |
| Boundary.DebitsAreAuthorised | app/routes/transactions.py:129-156 | in a routed run every committed debit of a USER account was submitted by the owner of that account, and every committed funding by the owner of its destination |
| Boundary.OnlyOwnersSpend | app/routes/transactions.py:129-142 | in a routed run, if the balance of a USER account falls between two versions, its owner submitted a debit committed in between |
| Boundary.HeaderTellsRequest | app/services/ledger_service.py:278-290 | every commit stores one header with all arguments of its call, the submitter included |
| Boundary.RoutedSumsFitInLong | app/models/common.py:43-64 | in a routed run every partial sum over up to 9,223,372 entries fits a signed 64-bit integer |
| Boundary.BoundaryIdentity | app/models/account.py:44-68 | in every version and currency the SYSTEM balance is minus what USER accounts hold, which is never negative |
| Boundary.TransfersConserveHoldings | app/models/transaction.py:48-53 | a transfer between USER accounts leaves the USER holdings of every currency unchanged |
| Boundary.BoundaryIsFunding | app/routes/accounts.py:223-242 | when all requests come through the routes, the SYSTEM balance is minus (committed funding minus transfers into it) |
| Boundary.ProvisionedFundingIsAccepted | app/routes/accounts.py:223-242 | after provisioning, a new funding of an ACTIVE account by its owner is admitted with the currency's SYSTEM account as source, and the ledger accepts it |
| Provisioning.ProvisioningConverges | app/services/account_service.py:134-173 | however replicas interleave, finished ones have exactly one SYSTEM account per currency, equal lists give equal maps, and the read after a lost race always finds a winner |
| Provisioning.ProvisioningIsReady | app/services/account_service.py:152-158 | however replicas interleave, no account changes, SYSTEM accounts are added only ACTIVE, without owner and counter, and only for currencies asked for; if all were ready before, all are afterwards |
| Provisioning.AdvanceProgresses | app/services/account_service.py:144-173 | every operation brings a replica closer to its end, whatever the others have done |
| AccountService.AccountsCollection.InsertOne | app/core/db.py:381-391 | an insert is refused exactly if it would add a second SYSTEM account for its currency |
| AccountService.AccountsCollection.CreateAccount | app/services/account_service.py:35-67 | adds one new active USER account of the owner without a counter, and nothing else |
| AccountService.AccountsCollection.EnsureSystemAccounts | app/services/account_service.py:134-173 | with other replicas inserting between any two operations, the result maps exactly the given currencies to their SYSTEM accounts; no account changes, and SYSTEM accounts are added only ACTIVE, without owner and counter |
| AccountService.ReplicasAgree | app/services/account_service.py:134-143 | two such results for the same currencies are equal, whenever they were produced |
| LedgerService.ValidateParticipants | app/services/ledger_service.py:134-183 | each error exactly under its condition on the two documents, none exactly if both exist, are ACTIVE and have the currency; agrees with the sequential specification for all accounts and requests |
| LedgerService.ApplyTransfer | app/services/ledger_service.py:186-327 | the body raises, aborts or stages a header exactly as the protocol machine does, for every interference between its operations, and counts one attempt |
| LedgerService.WithTransaction | app/services/ledger_service.py:366-429 | the retry loop answers what the machine records, after at most deadline + 1 attempts, and gives up only after exactly that many |
| LedgerService.CreateTransfer | app/services/ledger_service.py:330-443 | the outcome is the sequential ledger's answer at one instant of the call unless it is WRITE_CONFLICT; success has its header stored, and an error leaves no commit |

## Left out

- HTTP plumbing, authentication, rate limiting, logging, timestamps, descriptions and labels: they do not touch the ledger.
- Network failures, unknown commit results and server-side timeouts: a call is aborted only by a conflict, and the driver's deadline is a nondeterministic choice after an abort (in `LedgerService`, a number of retries).
- Account status changes: no application code performs them, so a status is fixed for the life of an account in a run.
- Entry ids and the `detected_by` field of duplicate answers: nothing depends on them.
- 64-bit wrap-around of sums: integers are unbounded; `SumsFitInLong` gives the size below which this makes no difference.
- Pagination, `read_transaction` visibility and the other read-only routes: thin lookups.
- LedgerService.Database.Others: has an empty body; its contract is what matters, namely that between two operations of a call the other calls take any legal steps of the machine.
- AccountService.AccountsCollection.Others: likewise stands for any inserts that the partial unique index admits.
- Admission.ExactAdmission: requires that no other call commits a movement of the contested account between the two states; with credits arriving meanwhile the number admitted depends on the interleaving.
- Progress.NoDeadlock: gives a schedule that finishes; it does not claim that every schedule does, because retries can be starved until the deadline.
