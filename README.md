# Payment core of the contractor marketplace

This project models the five route handlers of `src/app.js`. The store holds three tables:

- profiles, each with an id and a balance;
- contracts, each binding a client profile to a contractor profile;
- jobs, each done under a contract, with a price, a paid flag and a payment date.

The three GET routes are pure filters over the tables, so they are functions in module `Queries`:

- `GET /contracts/:id`: the contract with that id, when the caller is its client;
- `GET /contracts`: the caller's contracts as client;
- `GET /jobs/unpaid`: the unpaid jobs on contracts where the caller is client or contractor.

The two POST routes change the tables. They are methods of the class `Handlers.Store`, which holds the three tables as sequence fields:

- `POST /jobs/:job_id/pay` finds the unpaid job with that id on a contract the caller is client of. It answers 404 when there is none and 405 when the price is above the caller's balance. Otherwise it stamps the job as paid and debits the caller by the price.
- `POST /balances/deposit/:userId` sums the unpaid jobs on which the caller is the contractor. When there is at least one, it refuses (405) an amount above a quarter of that sum. Otherwise it credits the receiver and debits the caller by the amount.

Each method is proved equal to a transition function of the tables, `Handlers.PayStep` or `Handlers.DepositStep`. That function gives the answer and the new tables. The lemmas beside it state what the routes promise:

- each outcome and the condition under which it happens;
- the exact change to balances and jobs;
- conservation of money on a deposit;
- paid flags that only turn on;
- the primary keys kept.

Modules:

- `Entities`: rows, roles, and the settling of a job.
- `Queries`: the GET routes and the filters the POST routes run first.
- `Ledger`: profile lookup, balance increments and decrements, and sums of balances.
- `Handlers`: the POST routes, as transition functions, lemmas, and the `Store` class.

The caller is the profile that the authentication middleware resolved. It is an input, and the models require that a profile with its id exists. The clock reading that becomes the payment date is an input as well.

## Model

| member | source | states |
|---|---|---|
| Entities.Settle | src/app.js:91-92 | the saved job is paid and dated with the given instant; id, contract and price are kept |
| Queries.LinkedAs | src/app.js:41-50 | the inner join with a contract holds exactly when some contract with the job's contract id has the person on the required side |
| Queries.ContractById | src/app.js:18-22 | a contract is returned only if it is in the table, has the id, and has the caller as client; none is returned exactly when no such contract exists, so a contract where the caller is only the contractor is absent |
| Queries.ContractsOf | src/app.js:29-33 | the listing holds exactly the contracts whose client is the caller, each as often as the table holds it, so no row is repeated or dropped |
| Queries.UnpaidJobsWhere | src/app.js:40-56 | the join holds exactly the jobs that are unpaid and linked to a contract with the person on the required side, each as often as the table holds it |
| Queries.UnpaidJobs | src/app.js:40-60 | a job is listed iff it is in the table, is not paid, and some contract with its contract id has the caller as client or contractor; each listed job appears as often as in the table |
| Queries.FindPayable | src/app.js:68-84 | a found job has the id, is unpaid, and its contract's client is the caller, and it is the first such row; nothing is found iff no row qualifies |
| Queries.Receivables | src/app.js:110-123 | the cap query holds exactly the unpaid jobs on a contract where the depositor is the contractor, each as often as the table holds it |
| Queries.SumPricesConcat | src/app.js:126 | the total of two listings side by side is the sum of their totals |
| Queries.SumPricesPermutation | src/app.js:126 | the `reduce` total depends only on which rows are listed and how often, not on their order |
| Queries.ReceivablesTotalFixed | src/app.js:110-126 | every listing with the cap query's rows and row counts has the same total, so the cap is fixed by the tables |
| Queries.NoReceivablesNoCap | src/app.js:125 | with no unpaid job as contractor, every amount passes the cap |
| Queries.CapIsQuarterOfReceivables | src/app.js:125-131 | with at least one unpaid job as contractor, an amount passes iff four times it is at most the total owed |
| Queries.QuarterOfOneJob | src/app.js:126-131 | a contractor owed one job priced 100 may deposit 25 but not 26 |
| Queries.ContractorSeesJobsButNotContract | src/app.js:18-56 | a contractor who is not the client sees the contract's unpaid job in the unpaid listing but cannot fetch the contract |
| Ledger.ProfileIndex | src/app.js:135 | an exact-id lookup: a found row has the id; none is found iff no profile has it |
| Ledger.Adjust | src/app.js:137-138 | increment/decrement moves the balance of the row with the id by delta; every other row and every id stay as they were |
| Ledger.AdjustSum | src/app.js:137-138 | under unique ids, moving one profile's balance moves the total by delta, or by nothing when no profile has the id |
| Ledger.AdjustKeepsIds | src/app.js:94 | an increment or decrement keeps the profiles' primary key and the set of ids present |
| Ledger.PaymentRemovesPrice | src/app.js:94 | the payer's balance and the system's total both drop by exactly the price |
| Ledger.DepositConserves | src/app.js:137-138 | an increment of the receiver and a decrement of the depositor by the same amount keep the system's total |
| Ledger.DepositMovesAmount | src/app.js:137-138 | for distinct parties the receiver gains the amount, the depositor loses it, and their two balances add up as before |
| Ledger.PaymentKeepsBalancesNonNegative | src/app.js:86-94 | a payment that passed the sufficiency check leaves no balance negative |
| Ledger.DepositMayOverdraw | src/app.js:134-138 | the depositor's own balance is never checked: a profile holding 0 that deposits 10 ends at -10 |
| Ledger.ReceiverCandidatesAsWritten | src/app.js:135 | the unfiltered lookup returns only rows of the table, returns at least one row whenever the table has one, and may return a row with another id whenever the table holds one |
| Ledger.ReceiverAsWrittenIgnoresId | src/app.js:135 | the rows the unfiltered lookup may return are the same whatever id it is given |
| Ledger.ReceiverAsWrittenNeverMissing | src/app.js:135-137 | the caller's own row is in the table, so the unfiltered lookup always yields a receiver and `increment` is never called on a missing row |
| Ledger.ReceiverAsWrittenCreditsAnother | src/app.js:135-137 | a deposit to an id no profile has still finds a receiver, and every row it may credit belongs to someone else |
| Ledger.ReceiverAsWrittenMisdirects | src/app.js:135 | with profiles 1 and 2, the unfiltered lookup may return profile 1 for a deposit to 2; the exact-id lookup finds profile 2 |
| Handlers.PayNotFound | src/app.js:68-84 | the payment answers 404 iff every job with the id is paid or has no contract with the caller as client; then nothing changes |
| Handlers.PayInsufficient | src/app.js:86-88 | the payment answers 405 iff the job is found and its price is above the caller's balance; then nothing changes |
| Handlers.PaySettlesOneJob | src/app.js:90-101 | a successful payment settles exactly the found job and returns it; no other job and no contract changes |
| Handlers.PayDebitsOnlyPayer | src/app.js:94 | a successful payment debits the caller by the price and credits nobody, the contractor included; the system's total drops by the price |
| Handlers.PayKeepsInvariants | src/app.js:90-96 | paying keeps every primary key, and no paid flag goes from true back to false |
| Handlers.PayKeepsBalancesNonNegative | src/app.js:86-94 | when every balance starts non-negative, a payment leaves every balance non-negative |
| Handlers.SettleKeepsShape | src/app.js:91-92 | settling one unpaid job keeps the job ids unique and only turns that job's flag on |
| Handlers.SettledNotPayable | src/app.js:76-84 | once a job is settled, no caller's lookup finds it |
| Handlers.SecondPaymentNotFound | src/app.js:76-92 | after a successful payment, paying the same job again, by anyone and at any time, answers 404 and changes nothing |
| Handlers.PaymentClearsUnpaid | src/app.js:40-56 | a settled job leaves every unpaid listing: that of either party, and the receivables behind the deposit cap |
| Handlers.DepositRefusals | src/app.js:110-141 | the deposit answers 405 iff there is an unpaid job as contractor and four times the amount is above their total. Under the corrected exact-id receiver lookup (see "## Findings"), it answers 500 iff the cap passes and no profile has the receiver's id. Neither answer changes anything |
| Handlers.DepositConservesMoney | src/app.js:134-143 | a successful deposit found its receiver; it changes no contract, no job, and no profile other than the receiver and the caller; it keeps the system's total and answers with the caller's row |
| Handlers.DepositMovesBetweenTwo | src/app.js:137-143 | between distinct parties, the receiver gains the amount, the caller loses it, and the answer carries the caller's new balance |
| Handlers.DepositKeepsInvariants | src/app.js:134-138 | depositing keeps every primary key and touches no job |
| Handlers.TotalPrice | src/app.js:126 | the `reduce` loop computes the total price of the receivables |
| Handlers.Store.PayJob | src/app.js:63-102 | the answer and the new tables are those of PayStep; the primary keys hold, and paid flags only turn on |
| Handlers.Store.Deposit | src/app.js:104-144 | the answer and the new tables are those of DepositStep, reached through the loop total and the exact-id receiver lookup; the primary keys hold |
| Handlers.PayTwice | src/app.js:63-102 | on one store, if the first payment of a job succeeds, the second answers 404 and leaves the tables as the first payment left them |

Five definitions have no contract of their own. Other members state their properties:

- `Handlers.PayStep` models `src/app.js:63-102`. Its outcomes are stated by `Handlers.PayNotFound`, `Handlers.PayInsufficient`, `Handlers.PaySettlesOneJob` and `Handlers.PayDebitsOnlyPayer`. Its invariants are stated by `Handlers.PayKeepsInvariants`, `Handlers.PayKeepsBalancesNonNegative` and `Handlers.SecondPaymentNotFound`. `Handlers.Store.PayJob` is proved equal to it.
- `Handlers.DepositStep` models `src/app.js:104-144`. It is stated by `Handlers.DepositRefusals`, `Handlers.DepositConservesMoney`, `Handlers.DepositMovesBetweenTwo` and `Handlers.DepositKeepsInvariants`. `Handlers.Store.Deposit` is proved equal to it.
- `Queries.DepositAllowed` models the cap test at `src/app.js:125-131`. It is stated by `Queries.NoReceivablesNoCap`, `Queries.CapIsQuarterOfReceivables`, `Queries.QuarterOfOneJob` and the 405 clause of `Handlers.DepositRefusals`.
- `Queries.SumPrices` models the `reduce` at `src/app.js:126`. It is stated by `Handlers.TotalPrice`, `Queries.SumPricesConcat` and `Queries.SumPricesPermutation`.
- `Queries.Payable` models the `where` and `include` of `src/app.js:68-82`. It is stated by `Queries.FindPayable` and `Handlers.PayNotFound`.

## Left out

- Express routing, `body-parser` and the building of HTTP responses (`src/app.js:1-11`, `146`). The status codes 404, 405 and 500 are the constructors of `PayResult` and `DepositResult`.
- The Sequelize query builder and its operators. Each `where`/`include` filter is a predicate over the in-memory tables. Tables are sequences in row order. The paid flag is a boolean, and a NULL flag reads as false, as `[Op.not]: true` treats it.
- The `getProfile` middleware is not part of this model. The caller's id is an input, and its profile is required to exist.
- `new Date()` is an input instant.
- The floating-point `* 0.25` is replaced by the integer test `4 * amount <= total`.
- The header `amount` is taken as a natural number. Its string coercion is not modelled.
- The `try/catch` 500 answers on database failure, and atomicity and concurrency between `decrement` and `save` or `increment` and `decrement`. They concern storage failure and interleaving, not sequential logic.
- `ReceiverMissing` and the 500 clause of `Handlers.DepositRefusals` belong to the corrected exact-id lookup of the "## Findings" row. With that lookup, `increment` on a missing row throws into the catch. As written, the unfiltered lookup always returns a row, because the caller's own row is in the table. A deposit to a missing id then credits some other row and answers 200. `Ledger.ReceiverAsWrittenNeverMissing` and `Ledger.ReceiverAsWrittenCreditsAnother` state this.
- The `if (!contracts)` and `if (!jobs)` branches after `findAll` (`src/app.js:31`, `58`). `findAll` always yields an array, so these branches are dead.
- Database row order for the unfiltered receiver lookup. `Ledger.ReceiverCandidatesAsWritten` gives the set of rows it may return, not which one.
- Handlers.DepositConservesMoney: answers with the caller's row after the transfer. Whether the ORM refreshes the caller's in-memory object after `decrement` depends on the database dialect and is not modelled.
- Handlers.DepositMovesBetweenTwo: its clause that the answer carries the caller's new balance rests on the same assumption. The ORM may instead answer with the balance the caller had before the deposit.
- The model follows the code on three points:
  - A caller with no unpaid job as contractor may deposit any amount.
  - A payment never credits the contractor.
  - Nothing checks the depositor's own balance.

## Findings

| source | as written | input that shows it | evidently intended | confidence | as-written member | corrected member |
|---|---|---|---|---|---|---|
| src/app.js:135 | `Profile.findOne({ id: userId })` passes the id outside `where`, so the query has no filter and returns some row of the profiles table | profiles 1 and 2, deposit to userId 2: the first row, profile 1, may be credited; a deposit to userId 3 credits some existing row and answers 200 | `findOne({ where: { id: userId } })`, the profile with the requested id | not executed | Ledger.ReceiverCandidatesAsWritten (with Ledger.ReceiverAsWrittenMisdirects, Ledger.ReceiverAsWrittenIgnoresId, Ledger.ReceiverAsWrittenNeverMissing, Ledger.ReceiverAsWrittenCreditsAnother) | Ledger.ProfileIndex |
