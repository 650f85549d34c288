# Newsletter delivery backend — a Dafny model

This project models the core of a Rust newsletter service (zero2prod):

- the **issue delivery worker** (`src/issue_delivery_worker.rs`): a durable
  queue of (newsletter issue, subscriber e-mail) rows. Each row keeps the
  sending tries left (`left_sending_tries`), the time of the last attempt
  (`execute_last_time`) and a postponement in seconds
  (`execute_after_duration`). `try_execute_task` claims one row, checks the
  timing guard, validates the address, looks up the issue, sends, and then
  deletes the row or takes one try off it. `worker_loop` repeats this and
  sleeps according to the outcome;
- the **settings** helpers (`src/configuration.rs`): the environment name
  parser and printer, the e-mail client timeout, and the SSL-mode and
  database-name choices of the connection options;
- the **newsletter publishing** handler (`src/routes/admin/newsletters/post.rs`):
  each stored subscriber address is parsed into a subscriber or an error.
  Then every valid subscriber is sent the issue in order. Invalid entries
  are skipped, and the first failed send aborts with a 500;
- the **password change** handler (`src/routes/admin/password/post.rs`):
  it checks the session, the current password, the length of the new
  password and the match between the two new passwords, in that order,
  before the credential store is touched.

Files: `wrappers.dfy` (Option, Result), `std_time.dfy` (std::time::Duration),
`email_client.dfy` (the shape of one send), `http.dfy` (redirects, handler
errors, flash messages), `configuration.dfy`, `issue_delivery_worker.dfy`,
`newsletters_post.dfy`, `password_post.dfy`.

How the worker is modelled:

- The queue table is the class `DeliveryQueue`, whose field `rows` is a map
  keyed by (issue id, e-mail). `DequeueTask`, `DeleteTask`,
  `UpdateIssueDeliveryLeftTries` and `GetIssueDeliveryLeftTries` are its
  methods, one per SQL statement.
- `Execute` is the pure transition of `try_execute_task` on the claimed
  row. The method `TryExecuteTask` is proved equal to it.
- Row locks held by other workers are a `locked` set. Dequeue picks any row
  not in it.
- The worker's clock (`Utc::now`) and the database's `now()` are two integer
  parameters in microseconds.
- The address check (`SubscriberEmail::parse`) is a predicate parameter. The
  issue store is a map. The mail provider's answer is a boolean parameter.

Termination is stated through a ghost `Potential`: the sum, over all rows,
of (tries left, if positive) + 1. Every attempt that gets past the timing
guard strictly lowers it, and no call raises it (`ExecuteDecreasesPotential`).
So in any run of the worker loop, the number of attempts is bounded by the
starting potential (`WorkerLoop`).

The code differs from a design that stores a "not before" time per row and
removes unrecoverable rows at once; the model follows the code:

- postponement is computed as `execute_last_time + execute_after_duration`,
  not from a stored "not before" time;
- the dequeue query has no eligibility filter. A postponed row is still
  claimed, then released unchanged with `TaskPostponed`, and `EmptyQueue`
  happens only when every row is locked or the table is empty;
- an address that does not parse goes through the same decrement-or-delete
  path as a failed send. It is not removed at once;
- a row with k >= 0 tries left that always fails is removed after k + 1
  attempts, not k (`RetryLaw`);
- `try_execute_task` returns `TaskCompleted` after every attempt that passes
  the guard, whatever the send did.

The cast `Duration::from_secs(d as u64).as_micros() as i64` is modelled step
by step. It wraps twice for a negative `d`, and `PostponementMicros` proves
the two wraps cancel: the result is `d * 1_000_000` for every i32.

The password length rule counts UTF-8 bytes (`String::len`), not characters
(`Utf8Len`). The handler sends the success message "Your password has been
changed." at error level, and the model keeps that.

## Model

| member | source | states |
|---|---|---|
| `Configuration.AsStr` | src/configuration.rs:122-127 | Local prints as "local" and only Local does; Production prints as "production" and only Production does; the names are already lower case |
| `Configuration.TryFrom` | src/configuration.rs:130-142 | accepts exactly the strings whose lower-casing is "local" or "production", giving the environment that prints as that lower-cased name; otherwise the error is the lower-cased input followed by the "is not supported environment" text |
| `Configuration.ParsePrintRoundTrip` | src/configuration.rs:122-142 | parsing the printed name of an environment gives that environment back |
| `Configuration.PrintParseRoundTrip` | src/configuration.rs:122-142 | a name that parses prints back as its lower-cased form |
| `Configuration.ParseIsCaseInsensitive` | src/configuration.rs:134-136 | parsing a string and parsing its lower-cased form give the same result |
| `Configuration.SelectEnvironment` | src/configuration.rs:58-61 | with APP_ENVIRONMENT unset the environment is Local; with it set, the result is that name's parse |
| `Configuration.Timeout` | src/configuration.rs:35-37 | the timeout is a normalized duration of exactly timeout_milliseconds milliseconds (that many million nanoseconds) |
| `Configuration.WithoutDb` | src/configuration.rs:74-87 | SSL mode is Require iff require_ssl and Prefer otherwise; host, user, password and port are copied; no database is chosen |
| `Configuration.WithDb` | src/configuration.rs:89-93 | the options of without_db with the database name added and nothing else changed |
| `IssueDeliveryWorker.PostponementMicros` | src/issue_delivery_worker.rs:64-66 | the i32-to-u64 cast, from_secs, as_micros and the cast to i64 together give exactly execute_after_duration × 1,000,000, for negative durations too |
| `IssueDeliveryWorker.GetIssue` | src/issue_delivery_worker.rs:150-164 | the issue when its id is stored, otherwise the not-found error for that id |
| `IssueDeliveryWorker.IsPostponed` | src/issue_delivery_worker.rs:58-74 | a row never attempted is never postponed; one attempted before is postponed iff its last attempt time plus execute_after_duration seconds (in microseconds) is after now |
| `IssueDeliveryWorker.DeleteRow` | src/issue_delivery_worker.rs:217-228 | the table loses exactly the row of the key; every other row stays as it was |
| `IssueDeliveryWorker.UpdateLeftTries` | src/issue_delivery_worker.rs:240-257 | the keys are unchanged; the keyed row gets the new tries and the database time as last attempt, nothing else of it changes; every other row stays as it was |
| `IssueDeliveryWorker.Resolve` | src/issue_delivery_worker.rs:119-139 | a completed send deletes the row; a failed attempt deletes it when tries <= 0 and otherwise rewrites it with tries - 1 and the attempt time |
| `IssueDeliveryWorker.Execute` | src/issue_delivery_worker.rs:58-140 | a postponed row is left as it was with TaskPostponed and no send; an error comes exactly from a valid address with a missing issue and changes nothing; an invalid address never sends; a send happens exactly when guard, address and lookup pass, to the row's address with the issue's title, html and text; past the guard the answer is TaskCompleted; a successful send deletes the row; otherwise the row takes the decrement-or-delete path; no other row changes, no row appears, no row gains tries |
| `IssueDeliveryWorker.SleepAfter` | src/issue_delivery_worker.rs:19-30 | 10 s after EmptyQueue, 1 s after an error, no sleep after TaskCompleted or TaskPostponed |
| `IssueDeliveryWorker.ExecuteDecreasesPotential` | src/issue_delivery_worker.rs:119-140 | no call raises the retry potential of the table, and every attempt that gets past the guard strictly lowers it |
| `IssueDeliveryWorker.RetryLaw` | src/issue_delivery_worker.rs:125-139 | a row with k >= 0 tries that fails every attempt has k - n tries after n <= k attempts and is gone after k + 1; other rows are untouched |
| `IssueDeliveryWorker.FailedAttemptIsRetryStep` | src/issue_delivery_worker.rs:83-139 | an attempt past the guard whose send fails, or whose address is invalid, changes the table exactly as one step of the retry law |
| `IssueDeliveryWorker.DeliveryQueue.DequeueTask` | src/issue_delivery_worker.rs:177-209 | nothing is claimed iff every row is locked or the table is empty; otherwise the claimed row is a stored, unlocked row as stored |
| `IssueDeliveryWorker.DeliveryQueue.DeleteTask` | src/issue_delivery_worker.rs:212-231 | removes exactly the row of (issue id, e-mail) |
| `IssueDeliveryWorker.DeliveryQueue.UpdateIssueDeliveryLeftTries` | src/issue_delivery_worker.rs:234-264 | rewrites only the tries and the last attempt time of the row of (issue id, e-mail); no row when the key is absent |
| `IssueDeliveryWorker.DeliveryQueue.GetIssueDeliveryLeftTries` | src/issue_delivery_worker.rs:266-286 | the row's tries when it exists, the row-not-found error otherwise |
| `IssueDeliveryWorker.DeliveryQueue.TryExecuteTask` | src/issue_delivery_worker.rs:47-141 | EmptyQueue with an unchanged table iff no row can be claimed; otherwise the result, the new table and the send are those of Execute on the claimed row |
| `IssueDeliveryWorker.DeliveryQueue.WorkerLoop` | src/issue_delivery_worker.rs:18-31 | iteration i is one try_execute_task on the table left by iteration i - 1: EmptyQueue with the table unchanged when every row is locked, else Execute on some claimable row; each iteration sleeps as SleepAfter says; the table never gains rows or tries; the number of attempts past the guard is at most the starting potential |
| `Newsletters.ParseRow` | src/routes/admin/newsletters/post.rs:79-82 | a stored address gives a subscriber with that address iff it is valid, and otherwise an error naming it |
| `Newsletters.ParseRows` | src/routes/admin/newsletters/post.rs:78-83 | one result per stored row, in the same order |
| `Newsletters.GetConfirmedSubscriber` | src/routes/admin/newsletters/post.rs:66-85 | a query failure is passed on; otherwise as many results as rows, result i is Ok iff address i is valid, and carries that address |
| `Newsletters.DispatchAll` | src/routes/admin/newsletters/post.rs:24-49 | the loop sends at most one message per valid entry; when it stops at a failure, the last message sent went to the failed recipient |
| `Newsletters.DispatchSendsValidPrefix` | src/routes/admin/newsletters/post.rs:24-49 | the sends go, in order, to a prefix of the valid recipients, each with the form's title and bodies; with no failure every valid recipient was sent to successfully; a failure is the last send made and all earlier sends succeeded |
| `Newsletters.NoSendToInvalid` | src/routes/admin/newsletters/post.rs:40-47 | every message sent goes to an entry that parsed; invalid entries cause no send |
| `Newsletters.Publish` | src/routes/admin/newsletters/post.rs:17-52 | a query failure gives a 500 and no send; otherwise the sends are those of the loop, and the answer is a 500 naming the recipient exactly when a send failed; success is a redirect to /admin/newsletters with the "published" info flash; an error leaves no flash |
| `Newsletters.PublishNewsletter` | src/routes/admin/newsletters/post.rs:17-52 | the loop returns the response, flash and sends that Publish gives |
| `Newsletters.AllSentWhenNoFailure` | src/routes/admin/newsletters/post.rs:24-51 | when no send to a valid entry fails, the response is the redirect and the number of sends equals the number of valid entries |
| `PasswordChange.Utf8Len` | src/routes/admin/password/post.rs:34 | the byte length of the new password lies between its character count and four times that |
| `PasswordChange.RedirectBackToPage` | src/routes/admin/password/post.rs:52-54 | the redirect goes to /admin/password |
| `PasswordChange.RejectAnonymousUsers` | src/session_state.rs:41-50 | a logged-in session gives its user id; an anonymous one an error that redirects to /login; a session failure a 500 |
| `PasswordChange.ChangePassword` | src/routes/admin/password/post.rs:18-50 | the store is called iff a logged-in user's form passes all three checks; every non-error answer redirects to /admin/password with a flash; an error comes exactly from a missing login or a store failure, and a store failure is a 500 carrying its cause; a successful change leaves "Your password has been changed." at error level |
| `PasswordChange.AnonymousRejectedFirst` | src/routes/admin/password/post.rs:23 | an anonymous session is sent to /login whatever the form holds, without a flash and without a store call |
| `PasswordChange.WrongCurrentPasswordCheckedSecond` | src/routes/admin/password/post.rs:25-31 | a wrong current password gives "Wrong current password!" and no change, whatever the new passwords are |
| `PasswordChange.ShortPasswordCheckedThird` | src/routes/admin/password/post.rs:34-37 | once the current password passes, a new password of at most 12 bytes is refused with no change, whatever the confirmation is |
| `PasswordChange.MismatchCheckedLast` | src/routes/admin/password/post.rs:38-44 | once the length rule passes, differing new passwords are refused with no change |

## Left out

- Row locking, transactions and several workers running at once. Another worker's locks are modelled only as the `locked` set that dequeue skips. Commit and rollback atomicity is not modelled; an error simply leaves the table as it was.
- Database errors of `begin`, `commit`, the dequeue query, `DELETE` and `UPDATE`. The only error the worker model raises is a missing issue. Such errors would also end in the loop's 1 s sleep.
- The model assumes (issue id, e-mail) identifies one row, as the table's key. A table holding two rows with the same pair is not modelled.
- Overflow of the i64 addition `execute_last_time + postponement` in the timing guard; timestamps are unbounded integers.
- IssueDeliveryWorker.DeliveryQueue.WorkerLoop: runs a given number of iterations; the source loops until the process stops. Sleeps are returned as durations, not performed.
- `run_worker_until_stopped`, the connection pool and the e-mail client construction (I/O set-up).
- `SubscriberEmail::parse` (the domain module) is not part of this model: it is a validity predicate parameter.
- The mail provider's HTTP protocol (`src/email_client.rs`): a send is a success-or-failure answer.
- `validate_credentials`, `get_username_by_id` and the store's `change_password`: the check is a predicate parameter and the update a result parameter.
- `get_configurations` (reading files and environment variables), and every field of `PgConnectOptions` other than host, user, password, port, SSL mode and database. This includes the statement log level that `with_db` sets.
- Configuration.ToLowerAscii: lower-cases ASCII letters only; Rust's `to_lowercase` follows full Unicode case mapping.
- Tracing and logging, including the log of rows affected by the update.
- The flash messages' cookie transport; a flash is returned as a value.
