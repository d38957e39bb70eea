# Marketplace job payments: a verified model

This project models the contract, job and payment endpoints of a small
marketplace service in which clients pay contractors for jobs. The service
keeps three tables:

- **Profiles**: each has a type (client or contractor) and a balance.
- **Contracts**: each names one client, one contractor and a status (`new`, `in_progress` or `terminated`).
- **Jobs**: each belongs to a contract and has a price, a `paid` flag and a payment date.

The core is the payment routine (`POST /jobs/:id/pay`). Inside one database
transaction it does the following:

1. Loads the job with its contract.
2. Answers "not found" when the job is missing or the caller is not its client. The caller may be told "not found" even for a job they can see.
3. Refuses a job that is already paid.
4. Refuses a price above the client's balance.
5. Otherwise debits the client, credits the contractor, and marks the job paid at the current time.
6. Returns the job row with `paid` and `paymentDate` overwritten.

The transaction and its row locks make the routine one atomic step. The
model treats it that way:

- `Payment.PayResult` gives the outcome and the tables afterwards as a function of the tables before.
- `Payment.Store.Pay` performs the same steps imperatively on a store object holding the three tables as maps. Its postcondition is equality with `PayResult`.
- `Serial.RunPayments` serves any number of requests one after another. This is the effect the locks guarantee for concurrent requests.

Beside the payment routine sit three read endpoints: a contract by id, the
caller's non-terminated contracts, and the caller's unpaid jobs under
in-progress contracts. They are modelled as functions over the tables (module `Queries`).

Modules:

- `Entities`: rows, tables, and the referential-integrity predicate.
- `Ledger`: the balance update (`UPDATE ... SET balance = balance + delta WHERE id = ?`) and the sum of all balances.
- `Payment`: the payment routine and its properties.
- `Queries`: the read endpoints.
- `Serial`: sequences of payments.
- `Views`: how payments and reads relate.
- `Scenarios`: the repository's test scenarios.

Three details of the code decide the model:

- **Job without a contract row.** The job is loaded with a left join, so its contract may be absent. Reading the contract's client id then throws. The `catch` rolls back, so the outcome is `TransactionFailure` and nothing changes.
- **Missing client profile.** Reading its balance throws in the same way, with the same outcome.
- **Missing contractor profile.** The credit is an `UPDATE` that matches no row, so the price leaves the client and arrives nowhere. Conservation of money therefore holds only under the invariant that both parties of every contract exist (`Entities.PartiesExist`). `Payment.PayToMissingContractorLosesMoney` shows the loss when the invariant fails.

Two further observations, each backed by a lemma:

- The routine never looks at the contract's status. A job of a `new` or `terminated` contract does not appear on the unpaid list, yet it can still be paid (`Views.PayIgnoresContractStatus`).
- The `catch` branch answers "Server error" without setting a status, so the HTTP status is the default 200. A 500 would be the natural choice. HTTP statuses are not part of this model; that branch's outcome is `TransactionFailure`.

Money is modelled as whole numbers of the smallest currency unit; the store keeps it as a REAL.

## Model

| member | source | states |
|---|---|---|
| `Ledger.Adjust` | src/app.js:124-138 | A balance update changes only the target row, by exactly `delta`, keeps every row's type, and silently does nothing when the row is missing |
| `Ledger.AdjustTotal` | src/app.js:124-138 | A balance update changes the sum of all balances by `delta` if the row exists and by nothing otherwise |
| `Ledger.Transfer` | src/app.js:124-138 | Debit of the client then credit of the contractor: payer down by the amount, payee up by it, all other rows unchanged, no change at all when payer and payee coincide |
| `Ledger.TransferTotal` | src/app.js:124-138 | A transfer preserves the total when the payee row exists and loses exactly the amount when it does not |
| `Payment.MarkPaid` | src/app.js:140-144 | The job update sets `paid` and a payment date of `now` and keeps price, contract and description |
| `Payment.PayResult` | src/app.js:86-155 | One payment never changes contracts or the key sets of profiles and jobs; every outcome other than success leaves all tables exactly as they were (rollback) |
| `Payment.Store.Pay` | src/app.js:89-151 | The store method performs the checks in the source's order with early returns, then the debit, the credit and the job update; the outcome and new tables equal `PayResult`; failures change nothing; integrity and the total balance are preserved |
| `Payment.PayNotFound` | src/app.js:101-104 | "Not found" exactly when the job is missing or its contract's client is another profile; the job's own contractor gets "not found" and nothing is written |
| `Payment.PayAlreadyPaid` | src/app.js:106-109 | "Already paid" exactly when the caller is the client of a paid job; any request on a paid job writes nothing |
| `Payment.PayInsufficientFunds` | src/app.js:111-122 | "Insufficient funds" exactly when the client's unpaid job costs more than the client's balance; a price equal to the balance is not refused |
| `Payment.PayTransactionFailure` | src/app.js:89-119 | The routine throws, and rolls back, exactly when the job's contract row is missing, or when the client's profile row is missing at the balance check |
| `Payment.PayNeverFailsWithIntegrity` | src/app.js:152-155 | With referential integrity and an existing contract for the job, the exception path is never taken |
| `Payment.PayCheckOrder` | src/app.js:101-122 | On a paid job a stranger gets "not found" and the client gets "already paid", whatever the balance |
| `Payment.PaySucceeds` | src/app.js:101-124 | A payment succeeds exactly when the job and contract exist, the caller is the client, the job is unpaid and the client's balance is at least the price |
| `Payment.PaySuccessEffects` | src/app.js:124-151 | On success the client is debited and the contractor credited by the price, with no net change if they are the same profile; no profile changes type and all other profiles are unchanged; the job alone is marked paid at `now`; the returned row is the loaded job with those fields overwritten, plus its contract |
| `Payment.PayKeepsPayerSolvent` | src/app.js:119-130 | A client with a non-negative balance is never left negative by a payment, whatever the price, negative prices included |
| `Payment.PayConservesMoney` | src/app.js:124-138 | Under referential integrity the sum of all balances is the same after any payment request |
| `Payment.PayToMissingContractorLosesMoney` | src/app.js:132-138 | Without a contractor row the credit updates nothing and the total drops by the price |
| `Payment.PayKeepsBalancesNonNegative` | src/app.js:119-138 | Non-negative balances stay non-negative, given non-negative prices |
| `Payment.PayPreservesInvariants` | src/app.js:106-144 | A paid job's row is never changed again; referential integrity holds afterwards; every paid job keeps a payment date |
| `Payment.PayTwice` | src/app.js:106-109 | After a successful payment, every further request for the same job writes nothing, and the client is told it is already paid |
| `Payment.PayCannotOverdraw` | src/app.js:111-130 | When two jobs of one client together cost more than the balance, paying the first makes the second fail for insufficient funds, unless the client is also the first job's contractor (then the first payment leaves the balance unchanged) |
| `Queries.GetContract` | src/app.js:14-28 | 404 exactly when no contract has the id; 403 exactly when the caller is neither its client nor its contractor; otherwise the stored contract |
| `Queries.OpenContracts` | src/app.js:30-45 | Exactly the contracts where the caller is client or contractor and the status is not terminated, unchanged |
| `Queries.UnpaidJobs` | src/app.js:47-67 | Exactly the unpaid jobs whose contract exists, is in progress and involves the caller, each with its contract |
| `Queries.OpenContractsAreFetchable` | src/app.js:14-45 | Every listed contract is returned unchanged by the by-id endpoint for the same caller |
| `Queries.FetchableContractsAreListedUnlessTerminated` | src/app.js:21-42 | A contract the caller can fetch is left out of the caller's list exactly when it is terminated |
| `Queries.UnpaidJobsHaveOpenContracts` | src/app.js:47-64 | The contract of every unpaid job on the list can be fetched by the caller and is on the caller's contract list |
| `Serial.RunPayments` | src/app.js:86-146 | Serving requests one at a time yields one outcome per request and never changes contracts or the key sets of profiles and jobs |
| `Serial.RunConservesMoney` | src/app.js:86-146 | Under referential integrity, no sequence of payment requests changes the sum of all balances |
| `Serial.RunKeepsBalancesNonNegative` | src/app.js:111-138 | No sequence of payment requests makes a balance negative, given non-negative prices and balances |
| `Serial.PaidJobStaysPaid` | src/app.js:106-109 | Once paid, a job's row never changes and no later request for it is a successful payment |
| `Serial.RunPaysEachJobAtMostOnce` | src/app.js:97-146 | In any serial order of requests, no two successful payments are for the same job |
| `Serial.RequestsForPaidJobRejected` | src/app.js:106-109 | Any number of client requests for a paid job are all answered "already paid" and leave the store as it was |
| `Serial.RepeatedRequestsPayOnce` | src/app.js:97-146 | Of N client requests for one payable job, the first pays, the rest are told it is already paid, and the money moves once |
| `Views.PayRemovesJobFromUnpaidLists` | src/app.js:47-67 | A successful payment removes exactly the paid job from every caller's unpaid list |
| `Views.PayLeavesContractViewsUnchanged` | src/app.js:14-45 | A payment request never changes what the contract endpoints return |
| `Views.ListedJobIsPayable` | src/app.js:101-124 | A job on its client's unpaid list is paid by that client's request when the balance covers the price |
| `Views.ContractorSeesButCannotPay` | src/app.js:101-104 | A contractor who sees the job on their unpaid list gets "not found" when asking to pay it, and nothing changes |
| `Views.PayIgnoresContractStatus` | src/app.js:89-122 | Changing the contract's status changes neither whether a payment succeeds nor the resulting balances |
| `Scenarios.PaymentScenario` | tests/app.test.js:60-117 | Client 500, contractor 75, price 200: the contractor gets "not found"; the client's payment leaves 300 and 275 and the job paid at `now` |
| `Scenarios.StoreScenario` | tests/app.test.js:60-117 | Through the store object: the contractor's request is refused as not found, the client's payment returns the paid job dated `now` and leaves 300 and 275, and a repeated request is told the job is already paid |
| `Scenarios.ContractListScenario` | tests/app.test.js:34-56 | Client and contractor each see exactly their one contract; a third profile sees none |

## Left out

- HTTP routing, request parsing, status codes and JSON serialisation. Outcomes are datatypes, not responses.
- The profile-resolving middleware and its 401 answer. The middleware is not part of this model; the caller is given as a profile id.
- The transaction and row-lock mechanics, and concurrent interleavings. A payment is one atomic step. Concurrency appears only as serial runs of requests (`Serial`), which is the effect the locks promise.
- Infrastructure faults inside the transaction: store unavailable, deadlock, lock timeout. The in-memory store never fails. The only `TransactionFailure` outcomes modelled are the exceptions caused by missing contract or client rows.
- The clock. The payment time is the parameter `now`.
- Floating point. Balances and prices are integers, so rounding of REAL arithmetic is not modelled.
- Profile names and profession, contract terms beyond a string, and the rows' creation and update timestamps.
- Result order of the list endpoints. Lists are maps keyed by id, because the queries give no order.
- The admin reporting endpoints (best profession, best clients). They are aggregation queries run by the database.
- The test factories and generated test data.
- Payment.PayKeepsBalancesNonNegative: assumes non-negative job prices. Nothing in the routine rejects a negative price, and a negative price would lower the contractor's balance.
- Serial.RunKeepsBalancesNonNegative: assumes non-negative prices, for the same reason.
