# Banking service: verified model

A Dafny model of a small banking back end: the money-transfer protocol as many clients run it at once, the ledger
and the other writers of balances, the three analytical queries, the migration runner and the visibility checks.

## What is modelled

**Tables** (`Bank`). Accounts and ledger rows are maps from database keys; money is whole cents, at most
10^15 - 1 as `DECIMAL(15, 2)` allows. An UPDATE gives back the new table and the number of rows it *changed*, or the
server's refusal (balance below zero, or outside the column). `Bank.Attempt` is the specification of one transfer
running alone; every other account of a transfer is proved against it.

**The transfer machine** (`TransferMachine`, `TransferInvariant`, `TransferSafety`, `TransferLiveness`,
`TransferAnswers`, `TransferRequests`, `TransferDeadlock`). Any number of clients, each with its own list of calls,
over shared tables, a table of exclusive row locks, an undo log per open unit of work and a bounded blocking pool. One
step is one statement: borrow a connection, begin, lock, lock, check, debit, credit, insert, commit or roll back,
close. A fault can strike at every one of them. A schedule is an arbitrary sequence of choices, so every theorem about
`Run` is about every interleaving. The machine is not told that it is serializable, that rollback restores anything or
that locks do not deadlock; all of that is proved from the lock table and the undo logs.

**The same code as objects** (`Session`). Pool, connection, unit of work and service bodies as imperative Dafny, with
a driver fault at any chosen call. Each service call is proved to do what `Books.Apply` says, or to leave the tables
as they were, and to give its connection back.

**All writers at once** (`MixedMachine`, `MixedInvariant`, `MixedSafety`, `MixedAnswers`). Account creation, transfers, balance changes,
account deletion and ledger deletion as concurrent units of work over the same tables. Here accounts come and go, so a
locking read of a missing row locks the gap, and an account deletion waits for every row that refers to the account, as
it is or as a rollback would leave it. Every run is proved to be a serial run of `Books`, refusals included.

**The unsafe original** (`NaiveTransfer`, `NaiveRefusals`, `NaiveLosses`). The two-commit transfer of the concurrency
demo over the same tables: what it still conserves, exactly which orders can get a debit refused that had passed the
Python check, exactly which can lose money with nothing stopping, and how a stop loses it.

**The books** (`Books`). Account creation, transfers, balance changes, account closure and ledger deletion in any
mixture, with the foreign keys' RESTRICT and SET NULL actions. `ConcurrentBooks` joins this to the machine: what any
concurrent run leaves after recovery reconciles account by account with the ledger.

**Who sees what** (`Visibility`), **reports** (`Relational`, `HighValue`, `BranchConditions`, `TopResolvers`: joins as
nested loops over sequences, proved equal to a definition per customer, branch or employee), **migrations**
(`Statements`: the parser character by character; `Migrations`: the runner with a kill after any server call;
`ShippedMigrations`: the two files the repository has).

`Sums` holds the lemmas about sums over maps and sequences.

## Where the code and its documentation differ

- The lock order in `transfer` prevents deadlock only while no account is named by two spellings: ids are sorted as
  Python strings but the database compares them under a case-insensitive collation. `SortedIdsNeverDeadlock` has exact
  ids as its condition. `DeadlockExactly` says for any number of clients and calls exactly when they can deadlock,
  `TwoSpellingsDeadlock` and `ThreeSpellingsDeadlock` are concrete calls that do, the latter with no two that could.
- Between two accounts that are one row in two spellings the self-transfer check is passed: `SelfTransfer`, with
  `SelfTransferGoesThrough` as a concrete call.
- `set_balance` answers "Account not found" for an existing account whose balance already is the new value, because
  the driver reports changed rows, not matched ones: `NotFoundOnAdjust`.
- `integrity_guard` lists the server's CHECK error numbers, but only under `IntegrityError`; the concurrency demo
  catches that failure as `OperationalError`. The model lets it pass through untranslated: `Books.Guard`, and
  `UnhandledExactly` says which calls end that way.
- The runner can resume files of `CREATE TABLE IF NOT EXISTS` statements. The second migration is plain
  `CREATE INDEX`; `ShippedFilesResume` says exactly after which interruptions of the shipped pair it can be finished.
- `get` treats an empty account id as absent and an empty customer id as a value; `list_by_account` does the opposite.
  `VisibilityAgreesExactly` gives the exact condition under which the two agree, `VisibilityAgrees` the usual case and
  `TrapsExist` a concrete state for each way to fail. The services make their ids as UUIDs, which are never empty, so
  neither state arises from accounts and customers that the services created.

## Model

| member | source | states |
|---|---|---|
| TransferSafety.Serializability | app/services/transaction_service.py:33-61 | stop any run of any number of clients anywhere and roll back what is open: the tables are those of running the history's transfers one at a time, and every decided call got that serial run's answer |
| TransferAnswers.EveryAnswerIsSerial | app/services/transaction_service.py:26-63 | with fresh transaction ids, in every run, faults included, each entry of the history but a driver error is a step of the serial run, refusals included, and a driver error changes nothing |
| TransferAnswers.NeverDuplicate | app/services/transaction_service.py:53-61 | with fresh ids no run, however it fails, meets a duplicate ledger id, pending or answered |
| TransferAnswers.NoFaultNoAccident | app/services/transaction_service.py:53-61 | without driver faults such a run has no driver error either |
| TransferAnswers.InsertFindsNoRow | app/services/transaction_service.py:54 | with fresh ids no client finds its ledger id taken, by a committed row or by another client's open one |
| TransferSafety.MoneyConserved | app/services/transaction_service.py:48-51 | at every step working balances plus money debited and not yet credited make the starting total, the committed balances alone make it too, and no balance is negative or too large |
| TransferSafety.DoneIsAuthorized | app/services/transaction_service.py:45-46 | every transfer any run carries out, whatever the interleaving and the faults, was asked for by an admin or by the sending account's owner |
| TransferSafety.CheckUnreachable | app/repositories/accounts.py:65-71 | no run of the locked protocol ever attempts a write that the balance CHECK refuses |
| TransferInvariant.DebitKeeps | app/repositories/accounts.py:65-71 | under the locks the guarded debit reports 0 rows exactly when the balance in serial order is below the amount, is never an error, and keeps the invariant |
| TransferInvariant.CreditKeeps | app/repositories/accounts.py:74-79 | under the locks the credit is refused exactly when the serial run would leave the column's range, and keeps the invariant |
| TransferInvariant.FirstLockKeeps | app/services/transaction_service.py:35-36 | locking the first row keeps the invariant: the row read is the serial one |
| TransferInvariant.SecondLockKeeps | app/services/transaction_service.py:35-36 | so does locking the second, also when both names are one row |
| TransferInvariant.CheckKeeps | app/services/transaction_service.py:40-46 | existence and ownership checks on the locked rows give the refusal of the serial run |
| TransferInvariant.InsertKeeps | app/repositories/transactions.py:15-23 | inserting the ledger row keeps the invariant |
| TransferInvariant.CommitKeeps | app/db/uow.py:31 | commit is the moment the transfer happens: the serial run succeeds with the same ledger row, and the invariant holds relative to its result |
| TransferInvariant.RollbackEffect | app/db/uow.py:32-34 | undoing one, two or three writes puts back exactly the two account rows and takes out the ledger row, whatever other clients have changed meanwhile |
| TransferInvariant.RollbackKeeps | app/db/uow.py:32-36 | rollback after any exception keeps the invariant relative to the unchanged serial tables, and a refusal is the serial run's refusal |
| TransferInvariant.FaultKeeps | app/db/uow.py:28-34 | a driver error at any statement keeps the invariant |
| TransferInvariant.LocalKeeps | app/services/transaction_service.py:33-36 | a step that touches only rows its client has locked leaves every other client's view of the tables valid |
| TransferSafety.RunInv | app/services/transaction_service.py:33-61 | every state of every run satisfies the invariant relative to the serial replay of its own history |
| TransferSafety.AbortTransparent | app/db/uow.py:32-36 | whatever was raised in a unit of work at any statement (a refusal, an insufficient balance, an overflowing credit after the debit, a duplicate ledger id, a driver error), its rollback restores exactly the rows the client has locked and its ledger row, frees exactly its locks, leaves every other client, its locks and its uncommitted writes alone, and does not change the serial reading |
| TransferSafety.FaultTransparent | app/db/uow.py:28-36 | so a driver error at any statement inside the unit of work, followed by the rollback, is as if nothing had run |
| TransferSafety.WaitingMayFail | app/db/pool.py:55-57 | a call may also fail while it waits for a connection; it is then answered and nothing else changes |
| TransferSafety.OverflowUnreachable | migrations/001_initial_schema.sql:49 | if all the money fits in one balance at the start, no credit in any state of any run leaves the column's range |
| Bank.NoOverflowWhileTotalFits | app/repositories/accounts.py:74-79 | a transfer running alone in a bank whose total fits in one balance is never refused for range |
| Bank.AttemptConserves | app/services/transaction_service.py:48-51 | one transfer alone keeps the total, the range of every balance, the set of accounts and their owners, whatever the request |
| Bank.MovedIsDebitCredit | tests/unit/test_transfer_logic.py:31-40 | the serial effect on balances is a debit followed by a credit, also when both fall on one row |
| Bank.ForbiddenExactly | app/services/transaction_service.py:45-46 | between existing accounts a transfer is forbidden, with nothing changed, exactly to actors who are neither admin nor the customer the sending account belongs to; one that goes through was asked for by one of those |
| Bank.RefusedExactly | app/services/transaction_service.py:28-43 | the amount, same-account, missing-sender and missing-receiver refusals come in this order, each exactly in its case, and no refusal changes anything |
| Bank.DeclinedExactly | app/services/transaction_service.py:48-61 | an authorized actor is told of insufficient funds exactly below the amount, then of an overflow exactly past 9,999,999,999,999.99 in another account, then of a duplicate exactly for a taken id, else the transfer is done |
| Bank.DoneMeans | app/services/transaction_service.py:50-61 | a transfer that is done moves the amount between the two balances and no other, and writes exactly one ledger row, of kind TRANSFER with these ends, amount and time |
| TransferMachine.ReplayConserves | app/services/transaction_service.py:48-51 | any serial history keeps the total, the range of every balance, the set of accounts and their owners |
| TransferLiveness.DeadlockFree | app/services/transaction_service.py:34-36 | with rows locked in one strict order and a pool of at least one, whenever some call is unfinished some client can take a normal step |
| TransferLiveness.HolderMoves | app/services/transaction_service.py:35-36 | the holder of the greatest locked row can take a normal step |
| TransferLiveness.UnlockedMoves | app/db/pool.py:22-36 | with no row locked, either a given client with work can move, or it waits on an empty pool and a client that holds a connection can move |
| TransferLiveness.RunsAreBounded | app/db/uow.py:25-36 | no run, faults included, has more steps than the measure of its start |
| TransferLiveness.MeasureDecreases | app/db/uow.py:25-36 | every step of every client, normal or fault, strictly decreases a measure that is never negative |
| TransferLiveness.RunPool | app/db/pool.py:21-36 | in every state free and borrowed connections make up the pool |
| TransferLiveness.AnsweredOnce | app/services/transaction_service.py:26-63 | in every state each client's calls so far are answered once each, in its own order, as the history says |
| TransferLiveness.CleanEnd | app/db/uow.py:25-36 | a run that cannot go on has answered every call, holds no lock, has every connection back and the starting total, and its tables are the serial replay |
| TransferLiveness.Completes | app/db/uow.py:25-36 | every run, whatever has failed in it so far, has a fault-free continuation in which every call is answered |
| TransferRequests.SortedIdsNeverDeadlock | app/services/transaction_service.py:34-36 | sorting the two ids makes every run deadlock free for any collation, as long as no row in use has two spellings |
| TransferDeadlock.DeadlockExactly | app/services/transaction_service.py:34-36 | any number of clients and calls can deadlock if and only if their work lists hold a ring: calls of different clients, at least two and no more than the pool serves, each passing the Python checks with two existing and different rows, first rows all different, each second row being the next one's first |
| TransferDeadlock.StuckHasARing | app/db/pool.py:22-36 | every reachable state where unfinished calls remain and nobody can move holds such a ring, whatever went before and whatever failed |
| TransferDeadlock.RingDeadlocks | app/services/transaction_service.py:35-36 | every such ring is reached: run all other calls one by one, then each member up to its first lock |
| TransferDeadlock.OneCall | app/db/uow.py:25-36 | a client alone inside its calls always gets its next one answered, without touching any other client |
| TransferDeadlock.TwoTransfersDeadlock | app/services/transaction_service.py:34-36 | two concurrent transfers can deadlock if and only if both pass the Python checks, both rows exist, they lock them in opposite orders and the pool has two connections |
| TransferDeadlock.TwoSpellingsDeadlock | scripts/migrate.py:49-52 | under a case-insensitive collation a concrete pair of calls, each sorted, reaches a state where neither can move |
| TransferDeadlock.ThreeSpellingsDeadlock | scripts/migrate.py:49-52 | three concrete sorted calls reach such a state together though no two of them ever can |
| TransferRequests.RowOrderIsTotal | app/services/transaction_service.py:35 | the order of Python strings, carried over to rows by exact ids, is a strict total order |
| TransferRequests.SortedLocksInOrder | app/services/transaction_service.py:35-36 | the sorted calls lock their rows in that order |
| TransferRequests.QuantizeIsNearest | app/services/transaction_service.py:27 | the quantized amount is the one nearest whole number of cents, ties to even |
| TransferRequests.SmallAmountsRefused | app/services/transaction_service.py:27-29 | a call is refused as not positive, with nothing changed, exactly up to and including half a cent |
| TransferRequests.CallDoneExactly | app/services/transaction_service.py:26-63 | in the caller's terms: a call goes through if and only if its ids differ, its amount is over half a cent, both accounts exist, its actor is an admin or owns the first, which holds the rounded amount, the second has room and the ledger id is free; then balances and ledger row are what was asked for |
| TransferRequests.CallForbiddenExactly | app/services/transaction_service.py:45-46 | in the caller's terms: between existing accounts it is forbidden exactly to actors who are neither admin nor the first account's owner |
| TransferRequests.LocksSortedFirst | app/services/transaction_service.py:35-36 | the row locked first is the one whose id Python sorts first |
| TransferRequests.PyLessExactly | app/services/transaction_service.py:35 | ids are ordered where they first differ, or by length where one begins the other |
| TransferRequests.SelfTransfer | app/services/transaction_service.py:30-31 | a covered transfer from a row to itself is refused exactly when both ends are spelled alike; otherwise it succeeds, changes no balance and writes a ledger row |
| TransferRequests.SelfTransferGoesThrough | app/services/transaction_service.py:30-31 | a concrete call from "a" to "A" under a case-insensitive collation succeeds |
| Session.TransferCall | app/services/transaction_service.py:26-63 | every answered call did what one transfer alone means, with the same answer; a driver error at any of its at most seven database calls leaves the tables as they were; the connection always comes back |
| Session.TransferBody | app/services/transaction_service.py:34-61 | the body gives the serial outcome or raises the serial refusal, and its undo log restores the start at whatever statement it stops |
| Session.MoveMoney | app/services/transaction_service.py:48-61 | guarded debit, credit and insert give exactly the moved balances and the one new ledger row; each error is raised exactly in its case |
| Session.Body | app/services/account_service.py:25-58 | the bodies of create, set_balance, delete and of ledger deletion likewise, with integrity errors translated |
| Session.UnitOfWork | app/db/uow.py:25-36 | commits the body's writes or, on any exception including one from begin or commit, restores the tables exactly; nothing is left to undo |
| Session.Serve | app/db/uow.py:25-36 | any service call, answered, did what its operation means alone; otherwise it changed nothing; it is turned away exactly on an empty pool and always returns its connection |
| Session.Connection.Rollback | app/db/uow.py:32-34 | takes the logged writes back, last first, to the tables the log stands for |
| Session.Connection.Write | app/repositories/_base.py:30-34 | an UPDATE puts its table in place, reports rows changed, and extends the log so that it still restores the start |
| Session.Connection.InsertRow | app/repositories/transactions.py:15-23 | the ledger insert, its duplicate error, and its undo record |
| Session.Connection.InsertAccount | app/repositories/accounts.py:19-26 | the account insert with its three server answers, and its undo record |
| Session.Connection.DeleteAccount | migrations/001_initial_schema.sql:119-122 | account deletion: refused while it sends ledger rows or has cards, otherwise its incoming rows lose their receiver; the undo record relinks them |
| Session.Connection.DeleteRow | app/repositories/transactions.py:46-47 | ledger deletion with its row count, and its undo record |
| Session.Pool.Take | app/db/pool.py:22-26 | gives a connection exactly when one is free |
| NaiveTransfer.NaiveConservation | scripts/concurrency_demo.py:60-81 | in every run of naive transfers, committed balances plus money between the two commits plus money lost make the starting total, and no balance leaves its range |
| NaiveTransfer.AloneExactly | scripts/concurrency_demo.py:60-81 | one naive order run alone ends without a sender, in a clean rejection exactly below the amount, or with the money moved |
| NaiveLosses.LossExactly | scripts/concurrency_demo.py:70-79 | for any number of positive orders of which none pays a sender, money can be lost with nothing stopping if and only if there are orders that their senders can all cover and that cannot all be paid out, because a receiver is missing or would leave the column's range |
| NaiveLosses.RunBooked | scripts/concurrency_demo.py:70-79 | in every run without stops each balance is its start less the debits and plus the credits made |
| NaiveTransfer.NothingLostWithoutAStop | scripts/concurrency_demo.py:70-79 | with positive amounts and no stop, a loss always shows in the end of some client (its credit was refused for range or hit no account) and such an end always means a loss; otherwise balances plus money between the two commits stay constant |
| NaiveTransfer.BenignOrdersLoseNothing | scripts/concurrency_demo.py:70-79 | between existing accounts of a bank whose total fits in one balance, nothing is ever lost without a stop |
| NaiveTransfer.RefusalMeansRace | scripts/concurrency_demo.py:64-74 | a debit that passed the Python check and is refused by the CHECK was overtaken: since its read another client committed a write that took money from that account |
| NaiveRefusals.RefusalExactly | scripts/concurrency_demo.py:64-74 | for any number of positive orders of which none pays a sender, some client can pass the Python check and be refused by the CHECK if and only if some account's orders that its balance covers one at a time sum to more than it; stops make no difference |
| NaiveRefusals.RefusalExactlyAt | scripts/concurrency_demo.py:64-74 | the same for one account that no order pays into, whatever the other orders do |
| NaiveRefusals.OverclaimedSenderIsRefused | scripts/concurrency_demo.py:64-74 | whoever is paid, an account whose covered orders sum to more than its balance has a run without stops that gets one refused |
| NaiveRefusals.CoveredSendersAreSafe | scripts/concurrency_demo.py:67-74 | whoever is paid, if all that is sent from an account sums to at most its balance, no run, stops included, has a debit of it refused |
| NaiveTransfer.StopLosesMoney | scripts/concurrency_demo.py:74-79 | a stop between the two commits makes exactly the amount disappear |
| Books.BooksReconcile | app/services/account_service.py:16-58 | after any mixture of calls each live account's balance is its opening difference plus its administrative changes plus what the remaining ledger rows say, corrected by exactly what deleted rows said |
| Books.BankTotal | app/services/account_service.py:16-58 | the total moves only by the differences set_balance makes and the balances of deleted accounts |
| Books.PlaySound | migrations/001_initial_schema.sql:112-124 | after any mixture of calls balances are in range, amounts positive and both ends of every ledger row exist, so an account that a row was paid from is never gone |
| ConcurrentBooks.ReplayIsPlay | app/services/transaction_service.py:33-61 | the serial reading of a concurrent history is a run of the books made of its decided transfers |
| ConcurrentBooks.ConcurrentRunsReconcile | app/services/transaction_service.py:33-61 | stop any concurrent run anywhere and roll back what is open: the schema's constraints hold and every account's balance has moved by exactly what the ledger rows added since say it gained |
| Books.StepReconciles | app/services/transaction_service.py:89-92 | each single operation, ledger deletion included, keeps every account's books with the one correction it notes |
| Books.NotFoundOnAdjust | app/services/account_service.py:47-52 | set_balance answers "not found" exactly when the account is missing or already has that balance, and then changes nothing |
| Books.UnhandledExactly | app/services/_helpers.py:41-56 | the calls whose error passes the guard as it is are exactly those that set an existing balance below zero (the CHECK) or out of the column's range; nothing is changed |
| Books.CreationExactly | app/services/account_service.py:16-27 | creation conflicts on a taken id, is a bad request without its customer or branch, and else adds exactly one account, the customer's, with balance zero |
| Books.DeletionExactly | app/services/account_service.py:55-58 | deletion succeeds exactly for an existing account without cards and without ledger rows paid from it, is not found exactly without the account, and else conflicts; it removes that account alone and takes the receiver from exactly its incoming rows |
| Books.AdjustmentExactly | app/services/account_service.py:47-52 | set_balance succeeds exactly on an existing account for a different balance from 0 to 9,999,999,999,999.99, and changes that balance only |
| Books.ErasureExactly | app/services/transaction_service.py:89-92 | ledger deletion removes exactly the named row, or answers not found and changes nothing |
| Books.NotesExactly | app/services/account_service.py:47-52 | the corrections in the reconciliation are exactly what balance changes did to the account and what ledger deletions did to its sum of rows, one call at a time |
| Books.NewAccountStartsFromNothing | app/services/account_service.py:16-27 | a new account starts with no correction at all |
| MixedSafety.MixedSerializability | app/services/account_service.py:16-58 | stop any run of any number of clients anywhere, each working through any list of creations, transfers, balance changes, account and ledger deletions, and roll back what is open: the tables are those of the books' serial run of the history, and every answered call, refusals included, got its answer there |
| MixedSafety.MixedBooks | app/services/account_service.py:16-58 | after recovery the schema's constraints hold, every live account reconciles with the ledger and the administrative changes, and the total has moved only by decree |
| MixedSafety.EveryCallOnce | app/services/transaction_service.py:26-92 | in every state of every such run each client's calls are answered once each, in its own order |
| MixedAnswers.AloneIsServed | app/services/account_service.py:16-58 | whenever everybody is between calls, each client's next call can be served, and does and answers exactly what its operation means on the tables as they stand |
| MixedAnswers.MixedFaultTransparent | app/db/uow.py:28-36 | a driver error at any statement of any operation, the commit included, and its rollback put back exactly the rows the client had locked, free its locks and gaps alone, leave everybody else as they were and the serial reading unchanged |
| MixedAnswers.WaitsForCause | migrations/001_initial_schema.sql:119-122 | a creation, balance change or deletion waits only for another client that holds the row or gap it names, or a ledger row that refers to the account to be deleted |
| MixedAnswers.MixedDoneIsAuthorized | app/services/transaction_service.py:45-46 | every transfer any mixed run carries out was asked for by an admin or by whoever owned the sending account at that point |
| MixedSafety.CommitKeeps | app/db/uow.py:31 | a commit is the moment its operation happens: the serial tables move by exactly that operation with that answer |
| MixedSafety.RollbackKeeps | app/db/uow.py:32-36 | a client may be rolled back in any state: its rows return to their serial values, everybody else's stay |
| MixedInvariant.ExecuteKeeps | app/repositories/accounts.py:19-50 | the one statement of a creation, balance change or deletion, run on tables with other clients' open writes, does and answers what it would on the serial tables |
| MixedInvariant.InterestAgrees | migrations/001_initial_schema.sql:119-122 | when such a statement need not wait, every row it is interested in is unlocked and shows its serial value, rows that a rollback would bring back included |
| MixedInvariant.RollbackLocal | app/db/uow.py:32-34 | undoing a client's writes, a deletion with its unlinked rows included, puts back exactly the rows it has locked |
| MixedInvariant.ClientQuiet | app/services/account_service.py:25-58 | a client whose locked rows and gaps are untouched, and to whose accounts no ledger row newly refers, keeps everything it has established |
| Visibility.EnsureActorSees | app/services/transaction_service.py:100-108 | the loop with early return lets through exactly actors with role ADMIN and owners of an end with a non-empty id |
| Visibility.LookupExactly | app/services/transaction_service.py:71-77 | looking up a row is missing exactly without the row, granted exactly to admins and to owners of an end with a non-empty id, else denied |
| Visibility.ListingExactly | app/services/transaction_service.py:80-86 | listing an account is missing exactly without the account, granted exactly to admins and to its owner with a non-empty customer id, and then gives exactly the rows paid from or to it |
| Visibility.ListedIff | app/services/transaction_service.py:80-86 | a row appears in some list the actor may read exactly for admins and owners, with a non-empty customer id, of one of its ends |
| Visibility.VisibilityAgreesExactly | app/services/_helpers.py:33-38 | looking up and listing agree on a row if and only if the empty-id trap is not set |
| Visibility.VisibilityAgrees | app/services/transaction_service.py:71-108 | after any mixture of service calls, with no empty id in use, an actor may get a row exactly when it is in the list of some account they may list |
| Visibility.TrapsExist | app/services/_helpers.py:33-38 | a concrete state for each of the two ways in which looking up and listing disagree |
| HighValue.ReportIsExact | app/repositories/transactions.py:56-68 | the report holds exactly the active customers whose direct total is above the minimum, once each, in descending order of total |
| HighValue.GroupTotalIsDirect | app/repositories/transactions.py:59-65 | a customer's summed join rows are the sum over transactions of amount times how many of its distinct non-null ends are the customer's accounts |
| HighValue.TotalsAddUp | app/repositories/transactions.py:59-65 | over all customers the totals count each transaction with two distinct ends twice and each other one once |
| BranchConditions.ReportIsExact | app/repositories/branches.py:46-59 | the report holds exactly the branches above the employee threshold and at or above the account threshold, once each, with their true counts |
| BranchConditions.FanOutCounts | app/repositories/branches.py:49-55 | behind the fan-out of two left joins the distinct counts are the true counts, also when either side is empty |
| BranchConditions.EveryBranchGroups | app/repositories/branches.py:52-55 | every branch forms a group, staffed or not, and nothing else does |
| TopResolvers.ReportIsExact | app/repositories/support_tickets.py:53-68 | the report holds exactly the employees with a resolved ticket whom nobody exceeds, ties included, once each, with their true counts |
| TopResolvers.CountsAddUp | app/repositories/support_tickets.py:56-63 | the counts of the common table expression add up to the number of resolved tickets |
| TopResolvers.EmptyReport | app/repositories/support_tickets.py:64-66 | the report is empty exactly when no ticket is resolved |
| Statements.ParsePrint | scripts/migrate.py:37-42 | statements printed with semicolons, newlines and full-line comments in between parse back to the same list |
| Statements.ParsesExactly | scripts/migrate.py:37-42 | a statement printed alone parses back to itself if and only if it is trimmed, has no semicolon, no line separator but newline, and no line that is a comment |
| Statements.LastStatementParses | scripts/migrate.py:40-42 | a last statement without a semicolon is parsed all the same |
| Statements.CommentExactly | scripts/migrate.py:39 | a dropped line is exactly one whose first characters that are not whitespace are two dashes |
| Statements.LinesExactly | scripts/migrate.py:39 | lines end at the first break character, and a carriage return with the newline after it is one break |
| Statements.StripExactly | scripts/migrate.py:39-42 | stripping cuts off whitespace at both ends, all of it and nothing else |
| Statements.PiecesAreClean | scripts/migrate.py:40-42 | whatever the text, every parsed statement is non-blank, trimmed and free of semicolons |
| Migrations.Database.Migrate | scripts/migrate.py:71-91 | the nested loops, killed after any number of server calls or stopped by a failing statement, do what the recursive specification of a run says |
| Migrations.RecordedOnce | scripts/migrate.py:78-87 | after any interrupted runs and a complete one every version is recorded exactly once, and a further run applies nothing and changes nothing |
| Migrations.RecordsInOrder | scripts/migrate.py:79-87 | a run records the pending versions in file order as far as it gets, all of them exactly if it finishes, and the count it returns is how many it recorded |
| Migrations.FinishesExactly | scripts/migrate.py:79-87 | a run finishes if and only if no statement fails on the way and it can make all the calls the unrecorded files cost, and then leaves the schema those files lead to |
| Migrations.ResumeGivesTheSameSchema | scripts/migrate.py:79-87 | if every file can be replayed from the top after any part of it and a single run would finish, then after any interrupted runs the next one finishes exactly when it can make the calls still to be made, never more than at the start, and ends in the schema of the single run |
| Migrations.RunKeepsFinal | scripts/migrate.py:79-87 | then no run, interrupted or not, changes the final schema the remaining runs are heading for |
| ShippedMigrations.TableFileRestarts | migrations/001_initial_schema.sql:45-124 | a file of CREATE TABLE IF NOT EXISTS statements can be replayed after any part of it |
| ShippedMigrations.ShippedFilesResume | migrations/002_indexes.sql:6-18 | tables file then index file, any number of runs killed anywhere: a further run finishes if and only if, of what the run that recorded the tables had left and each later run was given, the first positive amount exceeds the whole index file (or there is none) |
| ShippedMigrations.OneInterruption | migrations/002_indexes.sql:6-18 | one run killed after k calls can be resumed if and only if it had not started on the indexes or had recorded them |
| ShippedMigrations.IndexFileStuck | migrations/002_indexes.sql:6-18 | in any list of files, once the first index of an unrecorded file exists and all files before it are recorded, no number of later runs gets past it or changes anything |

## Left out

- The HTTP layer, request schemas, tokens, password hashing, configuration and logging: they carry requests to the services above and hold no state of the bank.
- The services for customers, branches, employees, cards, loans, loan payments, credit scores and users: each inserts, lists, updates or deletes one row of its own table after one existence or ownership check, and no rule there ties two rows or two calls together.
- UUIDs, clocks and collation: ids and timestamps are inputs, and the collation is an arbitrary function from spellings to keys.
- The server's internals: a row lock is exclusive and held to the end of its transaction, an UPDATE is atomic, rollback undoes its transaction's own writes from the log the model keeps. In `TransferMachine`, whose accounts never change, a locking read of a missing row takes no lock. The server's deadlock detector and lock timeouts appear only as faults that may strike at any statement.
- Errors from `rollback` and `close` themselves, exceptions outside `Exception`, and a commit that fails after the server has committed: a failed commit is taken as not committed.
- The concurrent machines are stated on values, since one step of one client interleaves with all others. `TransferMachine` has the transfers only, on a fixed set of accounts, with the pool, deadlock and termination; `MixedMachine` has all writers, with gap locks, and says nothing about the pool or progress.
- In `MixedMachine` a lock that only forbids changes to a present row is exclusive, where the server may share it; rows of customers, branches and cards enter as flags of the call.
- Session.Serve: there is one caller at a time, so a call on an empty pool comes back as blocked where a real caller waits; waiting is a state of `TransferMachine`, where the client moves on once a connection is free.
- Session.Pool.Take: likewise says at once that no connection is free where the real pool waits.
- In `NaiveTransfer` an UPDATE and the commit after it are one step, so nothing can happen between the two.
- The counters and random workload of `_storm`: the theorems are about all workloads. Lazy creation of the pool in `get_pool` is not modelled.
- Decimal NaN, infinity and precision errors: the requested amount is a real number.
- TransferSafety.Serializability: calls that end in a driver error or a duplicate ledger id are absent from the serial run; when those cannot happen is stated by `EveryAnswerIsSerial`.
- The order of rows within `list_by_account`: only which rows it returns is modelled.
- HighValue.ReportIsExact: ties in the ORDER BY come in an order the model fixes and the server does not; the statement leaves it open.
- Changing a ticket's status is one assignment and is not modelled.
- Migrations.Database.Migrate: listing and sorting the migrations directory, creating the bookkeeping table and loading seeds are not modelled; files come as a list with distinct versions.
- Statements.ParsePrint: Python's whitespace and line-break characters are listed in the model; nothing else of Unicode is.
