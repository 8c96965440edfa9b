# LMS bank ledger, course unlock and session gates in Dafny

This project models the core of a small learning-management platform. The platform's
money is kept by a separate bank service. The model covers three parts:

- **The bank service** (`bank-api/server.js`). It has an account table (account number,
  secret hash, balance) and a transaction log. Its five handlers are: create an account,
  look up a balance, transfer immediately, record a pending transaction, and validate
  (settle) a pending transaction.
  - `LedgerSpec` states each handler as one atomic step on a `State` (a map of accounts
    plus a sequence of transactions). A handler that rolls back returns the state it was
    given.
  - `Ledger.Bank` is a class holding the same two tables. Its methods run the handlers'
    read-check-write steps one at a time. Each mutating handler is proved equal to its
    `LedgerSpec` step; `Balance` states its reply directly.
  - `AccountNumber.Generate` is the account-number formatter, as a function of the random
    draw.
  - `Credentials` is the idealised secret hash.
- **The learner controller** (`lms-api/controllers/learnerController.js`).
  - `CourseProgress` models the sequential-unlock loop of `learnCourse` as an in-place
    method over an array of materials, with a loop invariant.
  - `Learner` models `createBankAccount` and `purchaseCourse` as pure functions. Each call
    to the bank in them is the `LedgerSpec` step for that call.
- **The session middleware** (`lms-api/middleware/auth.js`). `Auth` models the three gates
  as total functions. Each returns exactly one `Outcome`: next, redirect, or 403.

Amounts are whole numbers of cents. A JavaScript field that is missing or falsy is modelled
as `""` for strings, `0` for the amount and the transaction id, and `None` or `Some(0)` for
the session's `userId`. A missing value and a falsy value take the same branch in every
handler. Transaction ids are the auto-increment ids of the `transactions` table: the row
with id `k` is `log[k - 1]`.

The model follows the code as written, including where it is lax:

- create-account does not check the sign of `initialBalance`, so an account can start
  below zero.
- transaction-record checks only that the amount is truthy. A negative pending amount is
  accepted, and validating it moves money from the receiver to the sender
  (`LedgerSpec.NegativePendingOverdrawsReceiver`).
- The code has no uniqueness retry for account numbers. A draw that repeats an existing
  number makes the INSERT fail with 500 and nothing is written. This assumes
  `account_number` is a key of the `accounts` table.
- validate-transaction also answers 400 when the id or the secret is missing, and 404 when
  the receiver's account is gone.
- The code takes no row locks and has no retry loop or "conflict" error. The model runs
  every request as one atomic step.

## Model

| member | source | states |
|---|---|---|
| `AccountNumber.Generate` | bank-api/server.js:14-18 | For every draw in [0, 10^9): the result is `ACC-` followed by exactly 9 decimal digits, and those digits denote the draw. |
| `AccountNumber.GenerateInjective` | bank-api/server.js:14-18 | Two different draws give two different account numbers. |
| `AccountNumber.PadStart` | bank-api/server.js:16 | `padStart` never truncates. It prepends fill characters up to the width and keeps the original string as the suffix. |
| `AccountNumber.Decimal` | bank-api/server.js:16 | `toString()` of a non-negative integer is a non-empty string of decimal digits. |
| `AccountNumber.DecimalValue` | bank-api/server.js:16 | Reading the decimal string back gives the number: `toString` is lossless. |
| `Credentials.Hash` | bank-api/server.js:34 | A secret always matches its own hash. |
| `Credentials.OnlyOwnSecretMatches` | bank-api/server.js:110 | `bcrypt.compare` accepts exactly the secret that was hashed (idealised: no collisions). |
| `LedgerSpec.Settle` | bank-api/server.js:133-143 | Debit then credit moves exactly `amount` from sender to receiver. It touches no other account, changes no secret, leaves a self-transfer unchanged, and keeps the total balance. |
| `LedgerSpec.CreateAccount` | bank-api/server.js:25-54 | No secret gives 400 and no change. Otherwise exactly one new account is added: number `ACC-…` from the draw, balance `initialBalance` or 1000, guarded by the secret. Existing accounts and the log are untouched, and the total grows by the new balance. A colliding number gives 500 with no change. |
| `LedgerSpec.Transfer` | bank-api/server.js:82-165 | Commits iff the fields are present, amount > 0, the sender exists, the secret is the sender's, funds cover the amount, and the receiver exists. Each code is characterised in that order: 400 fields or amount, 404 sender, 401 secret, 400 funds, 404 receiver. Failure changes nothing. Success moves exactly `amount`, appends one `completed` row whose id is returned, conserves the total, leaves the sender ≥ 0, and keeps all balances non-negative if they were. |
| `LedgerSpec.RecordTransaction` | bank-api/server.js:168-206 | Takes no secret. 400 iff from, to or amount is falsy; 404 iff either account is missing. Otherwise appends one `pending` row and returns its id, which is the new length of the log. Balances never change, and the amount's sign is not checked. |
| `LedgerSpec.ValidateTransaction` | bank-api/server.js:209-294 | Only a row that is currently pending is found: 404 iff the id is unknown or completed, or the pending row's receiver account is missing. 401 iff the receiver's secret fails. 400 iff the sender is missing or short of funds at validation time. Failure changes nothing. Success moves the row's amount, sets exactly that row to `completed`, returns the amount, and conserves the total. |
| `LedgerSpec.Apply` | bank-api/server.js:25-294 | Every handler, balance lookup included, keeps old rows and only moves rows from pending to completed. |
| `LedgerSpec.Run` | bank-api/server.js:25-294 | The same holds across any sequence of requests. |
| `LedgerSpec.SettledOnce` | bank-api/server.js:222-230 | After a validation of an id succeeds, no later validation of that id succeeds, whatever requests come in between. One that names a secret gets 404, so the funds move at most once per id. |
| `LedgerSpec.MoneyEntersOnlyByCreation` | bank-api/server.js:25-294 | Over any sequence of requests, the total balance changes by exactly the opening balances of the accounts created. Transfers and validations only move money. |
| `LedgerSpec.BenignStep` | bank-api/server.js:25-294 | One request keeps all balances and pending amounts non-negative if it carries no negative opening balance or pending amount. |
| `LedgerSpec.NoOverdraft` | bank-api/server.js:82-294 | Over any sequence of such requests, no balance ever goes below zero. The qualification is needed because create-account and transaction-record do not check signs. |
| `LedgerSpec.TransferNoOverdraft` | bank-api/server.js:116-143 | A committed transfer leaves every account that was non-negative still non-negative. |
| `LedgerSpec.NegativePendingOverdrawsReceiver` | bank-api/server.js:172-195 | A pending amount of -5 is recorded. Validating it succeeds, and the receiver ends at -5 from a non-negative start. |
| `Ledger.Bank.CreateAccount` | bank-api/server.js:25-54 | The handler's steps give exactly the `LedgerSpec.CreateAccount` reply and new tables. |
| `Ledger.Bank.Balance` | bank-api/server.js:57-79 | 404 for an unknown number, else the stored balance. It reads only (no modifies clause). |
| `Ledger.Bank.Transfer` | bank-api/server.js:82-165 | The handler's check sequence and its two UPDATEs and INSERT give exactly the `LedgerSpec.Transfer` reply and new tables. Every early exit happens before any write. |
| `Ledger.Bank.RecordTransaction` | bank-api/server.js:168-206 | The handler gives exactly the `LedgerSpec.RecordTransaction` reply and new tables. |
| `Ledger.Bank.ValidateTransaction` | bank-api/server.js:209-294 | The handler's lookups, two UPDATEs and status update give exactly the `LedgerSpec.ValidateTransaction` reply and new tables. |
| `CourseProgress.CompletedIds` | lms-api/controllers/learnerController.js:330 | An id is in the result iff some progress row for it has `completed` set. |
| `CourseProgress.Decorated` | lms-api/controllers/learnerController.js:333-348 | Same length, ids and other fields. `completed` iff the own id is completed. The first material is unlocked. Material k > 0 is unlocked iff material k-1 is completed, whether or not k itself is. |
| `CourseProgress.Unlock` | lms-api/controllers/learnerController.js:333-348 | The in-place loop leaves the array equal to `Decorated` of its old contents, although it reads the predecessor after rewriting it. |
| `CourseProgress.LearnCourse` | lms-api/controllers/learnerController.js:330-351 | Flags the materials from the progress rows. `allCompleted` holds iff there is at least one material and every material has a completed progress row; an empty course is never finished. |
| `CourseProgress.FinishedUnlocksAll` | lms-api/controllers/learnerController.js:339-351 | When all materials are completed, all are unlocked. |
| `CourseProgress.LockedMeansUnfinished` | lms-api/controllers/learnerController.js:339-351 | A locked material is never the first, its predecessor is incomplete, and the course is not finished. |
| `Learner.CreateBankAccount` | lms-api/controllers/learnerController.js:74-118 | A missing secret or one shorter than 4 UTF-16 units re-renders with the error and changes nothing. A learner who already has an account is sent to the dashboard with nothing changed. A colliding account number re-renders with the bank error and changes nothing. Otherwise the account numbered from the draw is opened with balance 1000, guarded by the secret, linked to the learner, and the learner is sent to the dashboard. |
| `Learner.Commission` | lms-api/controllers/learnerController.js:264-265 | For a non-negative price the commission is 70% of the price rounded down to a whole cent, so it lies between 0 and the price. |
| `Learner.Utf16Length` | lms-api/controllers/learnerController.js:79 | JavaScript's string length: the number of characters plus the number of positions holding a character outside the Basic Multilingual Plane, so two units for each such character. |
| `Learner.TwoEmojiSecretAccepted` | lms-api/controllers/learnerController.js:79 | A secret of two emoji has two characters but JavaScript length 4, so the length check lets it through. |
| `Learner.PurchaseCourse` | lms-api/controllers/learnerController.js:199-290 | An existing enrollment short-circuits before any payment. A missing course gives 404, a learner with no bank account is sent to bank setup, and a refused payment is sent back to the course with `purchase_failed`; these three change nothing. The enrollment is added iff the learner→organisation transfer commits, and nothing moves without it. The commission transfer is attempted only when the instructor has an account, and its failure does not undo the enrollment. The total money in the bank is unchanged. |
| `Learner.LearnerPaysPrice` | lms-api/controllers/learnerController.js:245-283 | After a purchase the learner's balance is lower by exactly the price, unless the learner's account is the organisation's or the instructor's. |
| `Learner.FreeCourseNeverEnrols` | lms-api/controllers/learnerController.js:246-256 | A course priced 0 or less can never be bought: the bank refuses a non-positive payment, so no enrollment is created and no money moves. |
| `Auth.RequireAuth` | lms-api/middleware/auth.js:3-8 | `next` iff a session with a truthy `userId` exists, otherwise redirect to `/login`. |
| `Auth.RequireRole` | lms-api/middleware/auth.js:10-22 | Not logged in gives the same `/login` redirect as `requireAuth`, checked before the role. Logged in with another role gives 403. `next` iff logged in with exactly the required role. Never any other outcome. |
| `Auth.RedirectIfAuthenticated` | lms-api/middleware/auth.js:24-30 | Redirects a logged-in session to `/<role>/dashboard`, and calls `next` exactly when `requireAuth` would not. |
| `Auth.GatesAgree` | lms-api/middleware/auth.js:3-30 | No redirect loop. A session sent to its dashboard passes that role's gate, and one sent to `/login` is let through there. |

## Left out

- bcrypt: salting, the cost factor, the 72-byte input limit and timing are not modelled. A
  secret matches a hash exactly when it is the hashed secret.
- `Math.random`: the draw is a parameter in [0, 10^9).
- MySQL connections, `beginTransaction`/`commit`/`rollback`, pooling and concurrent requests:
  each handler is one atomic step. The source reads balances without row locks, so two
  concurrent transfers could both pass the funds check. That race is outside a sequential
  model.
- The 500 replies from the `catch` blocks are not modelled, because database and network
  faults are not modelled. The one exception is a duplicate account number on
  create-account.
- `validated_at` and other `NOW()` timestamps, and the certificate code built from
  `Date.now()`.
- Floating-point money: `parseFloat`, DECIMAL values compared as strings, and
  `price * 0.70`.
- Learner.Commission: the commission is computed in whole cents rounded down, where the
  source computes a floating-point 70% of the price.
- `purchaseCourse`'s `payment_failed` redirect: the bank answers a committed transfer with
  `success: true` and any refusal with a non-2xx status, which the HTTP client throws. A
  refused payment therefore ends in the `catch` and its `purchase_failed` redirect, and
  that is the only failure path modelled.
- The other learner handlers (dashboard, bank-setup page, browse, course details,
  completeCourse, viewCertificate, checkBalance, completeMaterial), the enrollment check at
  the start of `learnCourse`, and its certificate lookup. These are database reads and page
  rendering with no rule beyond what is modelled.
- Express, HTTP, the HTTP client, EJS rendering, sessions and uploads. Only the decisions
  they feed are modelled. A session whose `role` is undefined is not distinguished from a
  role string.
- `lms-api/controllers/instructorController.js`, `adminController.js`, `authController.js`,
  `completeMaterialFunction.js`, `lms-api/server.js`, the route files and
  `generate-hashes.js`: query, render and wiring code. `collectPayments` only reads pending
  transactions and settles nothing.
