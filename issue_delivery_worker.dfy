/**
  The issue delivery worker: a durable queue of (newsletter issue,
  subscriber e-mail) rows, each carrying how many sending tries are left,
  when the last attempt happened and how long to postpone after it.

  The table is a map keyed by (issue id, e-mail), the pair that every
  DELETE and UPDATE of the worker selects on. Times are microseconds since
  the epoch. The address validity check, the issue store and the mail
  provider are parameters: a predicate, a map and a boolean answer.
 */
module IssueDeliveryWorker {
  import opened Wrappers
  import opened StdTime
  import opened EmailClient

  type Int32 = x: int | -0x8000_0000 <= x < 0x8000_0000

  /** Stands for the issue's Uuid; only equality matters. */
  type IssueId = nat

  datatype ExecutionOutcome = TaskCompleted | TaskPostponed | EmptyQueue

  /** The only error the model lets try_execute_task raise: get_issue found no issue. */
  datatype WorkerError = IssueNotFound(issueId: IssueId)

  /** The error of a query whose fetch_one found no row. */
  datatype StoreError = RowNotFound

  datatype NewsletterIssue = NewsletterIssue(title: string, textContent: string, htmlContent: string)

  datatype TaskKey = TaskKey(issueId: IssueId, subscriberEmail: string)

  /** One row of issue_delivery_queue. */
  datatype Task = Task(
    newsletterIssueId: IssueId,
    subscriberEmail: string,
    leftSendingTries: Int32,
    executeAfterDuration: Int32,
    executeLastTime: Option<int>)
  {
    function Key(): TaskKey { TaskKey(newsletterIssueId, subscriberEmail) }
  }

  type Table = map<TaskKey, Task>

  /** Every row is stored under its own (issue id, e-mail) key. */
  predicate WellKeyed(rows: Table) {
    forall k :: k in rows ==> rows[k].Key() == k
  }

  /** A row a dequeue may hand out: present, stored as is, and not locked by another transaction. */
  predicate Claimable(rows: Table, locked: set<TaskKey>, t: Task) {
    t.Key() in rows && t.Key() !in locked && rows[t.Key()] == t
  }

  // ---------------------------------------------------------------------
  // The postponement guard

  const I64_HALF: int := 0x8000_0000_0000_0000

  /** `x as u64` on an i32: two's complement sign extension. */
  function AsU64(x: Int32): (u: U64)
    ensures x >= 0 ==> u == x
    ensures x < 0 ==> u == x + U64_LIMIT
  {
    if x >= 0 then x else x + U64_LIMIT
  }

  /** `v as i64` on a wider unsigned value: keep the low 64 bits, read them as signed. */
  function TruncateToI64(v: nat): (r: int)
    ensures -I64_HALF <= r < I64_HALF
  {
    var low := v % U64_LIMIT;
    if low < I64_HALF then low else low - U64_LIMIT
  }

  /** Euclidean division by 2^64 has one quotient and one remainder. */
  lemma ModUnique(a: int, q: int, r: int)
    requires a == q * U64_LIMIT + r && 0 <= r < U64_LIMIT
    ensures a % U64_LIMIT == r
  {
  }

  /**
    The postponement in microseconds as the worker computes it:
    `Duration::from_secs(d as u64).as_micros() as i64`. For a negative
    duration both casts wrap, and the two wraps cancel: the result is
    d * 1_000_000 for every i32.
   */
  function PostponementMicros(d: Int32): (m: int)
    ensures m == d * 1_000_000
  {
    var micros := AsMicros(FromSecs(AsU64(d)));
    if d >= 0 then
      ModUnique(micros, 0, micros);
      TruncateToI64(micros)
    else
      assert micros == 999_999 * U64_LIMIT + (d * 1_000_000 + U64_LIMIT);
      ModUnique(micros, 999_999, d * 1_000_000 + U64_LIMIT);
      TruncateToI64(micros)
  }

  /**
    The timing guard: a row that was attempted before stays postponed
    while its last attempt plus its postponement is still after `nowUs`.
   */
  predicate IsPostponed(t: Task, nowUs: int): (r: bool)
    ensures t.executeLastTime.None? ==> !r
    ensures t.executeLastTime.Some? ==>
      (r <==> t.executeLastTime.value + t.executeAfterDuration * 1_000_000 > nowUs)
  {
    t.executeLastTime.Some? &&
    t.executeLastTime.value + PostponementMicros(t.executeAfterDuration) > nowUs
  }

  // ---------------------------------------------------------------------
  // The statements on the table, as values

  /** DELETE ... WHERE newsletter_issue_id = $1 AND subscriber_email = $2. */
  function DeleteRow(rows: Table, key: TaskKey): (r: Table)
    ensures r.Keys == rows.Keys - {key}
    ensures forall k :: k in r ==> r[k] == rows[k]
  {
    rows - {key}
  }

  /** UPDATE ... SET left_sending_tries = $1, execute_last_time = now() for one key. */
  function UpdateLeftTries(rows: Table, key: TaskKey, tries: Int32, dbNowUs: int): (r: Table)
    ensures r.Keys == rows.Keys
    ensures key in rows ==> r[key] == rows[key].(leftSendingTries := tries, executeLastTime := Some(dbNowUs))
    ensures forall k :: k in rows && k != key ==> r[k] == rows[k]
  {
    if key in rows then rows[key := rows[key].(leftSendingTries := tries, executeLastTime := Some(dbNowUs))]
    else rows
  }

  /**
    How an attempt ends for its row: a successful send deletes it; a
    failed attempt deletes it when no tries are left, and otherwise takes
    one try off and stamps the attempt time.
   */
  function Resolve(rows: Table, t: Task, attempt: ExecutionOutcome, dbNowUs: int): (r: Table)
    requires attempt != EmptyQueue
    ensures attempt == TaskCompleted ==> r == DeleteRow(rows, t.Key())
    ensures attempt == TaskPostponed && t.leftSendingTries <= 0 ==> r == DeleteRow(rows, t.Key())
    ensures attempt == TaskPostponed && t.leftSendingTries > 0 ==>
      r == UpdateLeftTries(rows, t.Key(), t.leftSendingTries - 1, dbNowUs)
  {
    if attempt == TaskCompleted then DeleteRow(rows, t.Key())
    else if t.leftSendingTries <= 0 then DeleteRow(rows, t.Key())
    else UpdateLeftTries(rows, t.Key(), t.leftSendingTries - 1, dbNowUs)
  }

  /** get_issue: fetch_one on newsletter_issues. */
  function GetIssue(issues: map<IssueId, NewsletterIssue>, id: IssueId): (r: Result<NewsletterIssue, WorkerError>)
    ensures r.Ok? <==> id in issues
    ensures r.Ok? ==> r.value == issues[id]
    ensures r.Err? ==> r.error == IssueNotFound(id)
  {
    if id in issues then Ok(issues[id]) else Err(IssueNotFound(id))
  }

  /** What one call of try_execute_task on a claimed row produces. */
  datatype Step = Step(result: Result<ExecutionOutcome, WorkerError>, rows: Table, sent: Option<EmailMessage>)

  /**
    try_execute_task once the row `t` is claimed: the timing guard, then
    the address check, the issue lookup and the send, then the resolution
    of the row. Every attempt that gets past the guard reports
    TaskCompleted, whatever the send did.
   */
  function Execute(
    rows: Table, t: Task, nowUs: int, dbNowUs: int,
    isValidEmail: string -> bool, issues: map<IssueId, NewsletterIssue>, sendSucceeds: bool): (s: Step)
    requires WellKeyed(rows) && t.Key() in rows && rows[t.Key()] == t
    // the guard: a postponed row is released as it was, nothing is sent
    ensures IsPostponed(t, nowUs) ==> s == Step(Ok(TaskPostponed), rows, None)
    // an error leaves the table as it was and sends nothing
    ensures s.result.Err? ==> s.rows == rows && s.sent.None?
    ensures s.result.Err? <==> !IsPostponed(t, nowUs) && isValidEmail(t.subscriberEmail) && t.newsletterIssueId !in issues
    // an invalid address is never sent to and never looks up the issue
    ensures !isValidEmail(t.subscriberEmail) ==> s.sent.None? && s.result.Ok?
    // past the guard, the answer is always TaskCompleted
    ensures s.result.Ok? && !IsPostponed(t, nowUs) ==> s.result.value == TaskCompleted
    // a send happens exactly when the guard, the address and the lookup all pass, to the row's address
    ensures s.sent.Some? <==> !IsPostponed(t, nowUs) && isValidEmail(t.subscriberEmail) && t.newsletterIssueId in issues
    // the message goes to the row's address with the issue's title, html and text
    ensures s.sent.Some? ==>
      var issue := issues[t.newsletterIssueId];
      s.sent.value == EmailMessage(t.subscriberEmail, issue.title, issue.htmlContent, issue.textContent)
    // a delivered message removes the row
    ensures s.sent.Some? && sendSucceeds ==> s.rows == DeleteRow(rows, t.Key())
    // an attempt that delivered nothing goes through the decrement-or-delete path
    ensures !IsPostponed(t, nowUs) && s.result.Ok? && !(s.sent.Some? && sendSucceeds) ==>
      s.rows == Resolve(rows, t, TaskPostponed, dbNowUs)
    // no other row changes, no row appears, no row gains tries
    ensures forall k :: k in rows && k != t.Key() ==> k in s.rows && s.rows[k] == rows[k]
    ensures forall k :: k in s.rows ==> k in rows && s.rows[k].leftSendingTries <= rows[k].leftSendingTries
    ensures WellKeyed(s.rows)
  {
    if IsPostponed(t, nowUs) then Step(Ok(TaskPostponed), rows, None)
    else if isValidEmail(t.subscriberEmail) then
      match GetIssue(issues, t.newsletterIssueId)
      case Err(e) => Step(Err(e), rows, None)
      case Ok(issue) =>
        var message := EmailMessage(t.subscriberEmail, issue.title, issue.htmlContent, issue.textContent);
        var attempt := if sendSucceeds then TaskCompleted else TaskPostponed;
        Step(Ok(TaskCompleted), Resolve(rows, t, attempt, dbNowUs), Some(message))
    else
      Step(Ok(TaskCompleted), Resolve(rows, t, TaskPostponed, dbNowUs), None)
  }

  /**
    worker_loop's policy: ten seconds of sleep on an empty queue, one
    second after an error, none after an attempt or a postponement.
   */
  function SleepAfter(r: Result<ExecutionOutcome, WorkerError>): (d: Option<Duration>)
    ensures r == Ok(EmptyQueue) <==> d == Some(FromSecs(10))
    ensures r.Err? <==> d == Some(FromSecs(1))
    ensures d.None? <==> r == Ok(TaskCompleted) || r == Ok(TaskPostponed)
  {
    match r
    case Ok(EmptyQueue) => Some(FromSecs(10))
    case Err(_) => Some(FromSecs(1))
    case Ok(_) => None
  }

  // ---------------------------------------------------------------------
  // Termination: the retry budget that every attempt spends

  /** What a row can still cost: its remaining tries plus the final attempt. */
  function Weight(t: Task): (w: nat)
    ensures w >= 1
  {
    if t.leftSendingTries > 0 then t.leftSendingTries + 1 else 1
  }

  /** The sum of the weights of all rows. */
  ghost function Potential(rows: Table): nat
    decreases |rows|
  {
    if rows == map[] then 0
    else
      var k :| k in rows;
      assert |rows - {k}| < |rows| by { assert rows.Keys - {k} < rows.Keys; }
      Weight(rows[k]) + Potential(rows - {k})
  }

  lemma {:induction false} PotentialRemove(rows: Table, key: TaskKey)
    requires key in rows
    ensures Potential(rows) == Weight(rows[key]) + Potential(rows - {key})
    decreases |rows|
  {
    var k :| k in rows && Potential(rows) == Weight(rows[k]) + Potential(rows - {k});
    if k != key {
      assert |rows - {k}| < |rows| by { assert (rows - {k}).Keys < rows.Keys; }
      assert |rows - {key}| < |rows| by { assert (rows - {key}).Keys < rows.Keys; }
      PotentialRemove(rows - {k}, key);
      PotentialRemove(rows - {key}, k);
      assert rows - {k} - {key} == rows - {key} - {k};
    }
  }

  /** Rewriting one row changes the potential by the change in that row's weight. */
  lemma PotentialUpdate(rows: Table, key: TaskKey, t: Task)
    requires key in rows
    ensures Potential(rows[key := t]) + Weight(rows[key]) == Potential(rows) + Weight(t)
  {
    PotentialRemove(rows, key);
    PotentialRemove(rows[key := t], key);
    assert rows[key := t] - {key} == rows - {key};
  }

  /**
    Every call spends budget or leaves the table as it was: an attempt
    that gets past the guard (TaskCompleted) strictly lowers the potential,
    and nothing raises it. Hence no row is retried forever.
   */
  lemma ExecuteDecreasesPotential(
    rows: Table, t: Task, nowUs: int, dbNowUs: int,
    isValidEmail: string -> bool, issues: map<IssueId, NewsletterIssue>, sendSucceeds: bool)
    requires WellKeyed(rows) && t.Key() in rows && rows[t.Key()] == t
    ensures var s := Execute(rows, t, nowUs, dbNowUs, isValidEmail, issues, sendSucceeds);
      && Potential(s.rows) <= Potential(rows)
      && (s.result == Ok(TaskCompleted) ==> Potential(s.rows) < Potential(rows))
  {
    var s := Execute(rows, t, nowUs, dbNowUs, isValidEmail, issues, sendSucceeds);
    if s.rows != rows {
      var key := t.Key();
      if key in s.rows {
        assert s.rows == rows[key := t.(leftSendingTries := t.leftSendingTries - 1, executeLastTime := Some(dbNowUs))];
        PotentialUpdate(rows, key, s.rows[key]);
      } else {
        assert s.rows == rows - {key};
        PotentialRemove(rows, key);
      }
    }
  }

  /** The table after a row fails one attempt per time stamp in `times`. */
  function FailRepeatedly(rows: Table, key: TaskKey, times: seq<int>): (r: Table)
    requires WellKeyed(rows)
    ensures WellKeyed(r)
    decreases |times|
  {
    if times == [] || key !in rows then rows
    else FailRepeatedly(Resolve(rows, rows[key], TaskPostponed, times[0]), key, times[1..])
  }

  /**
    The retry law: a row that starts with k >= 0 tries left and fails
    every attempt is still there with k - n tries after n <= k attempts and
    is gone after k + 1; no other row is touched.
   */
  lemma {:induction false} RetryLaw(rows: Table, key: TaskKey, times: seq<int>)
    requires WellKeyed(rows) && key in rows && rows[key].leftSendingTries >= 0
    ensures var r := FailRepeatedly(rows, key, times);
      && (|times| <= rows[key].leftSendingTries ==>
            key in r && r[key].leftSendingTries == rows[key].leftSendingTries - |times|)
      && (|times| == rows[key].leftSendingTries + 1 ==> key !in r)
      && (forall k :: k != key ==> (k in r <==> k in rows) && (k in r ==> r[k] == rows[k]))
    decreases |times|
  {
    if times != [] {
      var next := Resolve(rows, rows[key], TaskPostponed, times[0]);
      if rows[key].leftSendingTries == 0 {
        assert key !in next;
        if times[1..] != [] { assert FailRepeatedly(next, key, times[1..]) == next; }
      } else {
        assert key in next && next[key].leftSendingTries == rows[key].leftSendingTries - 1;
        RetryLaw(next, key, times[1..]);
      }
    }
  }

  /** The table after one failed attempt on its claimed row is one step of the retry law. */
  lemma FailedAttemptIsRetryStep(
    rows: Table, t: Task, nowUs: int, dbNowUs: int,
    isValidEmail: string -> bool, issues: map<IssueId, NewsletterIssue>)
    requires WellKeyed(rows) && t.Key() in rows && rows[t.Key()] == t
    requires !IsPostponed(t, nowUs)
    requires !isValidEmail(t.subscriberEmail) || t.newsletterIssueId in issues
    ensures Execute(rows, t, nowUs, dbNowUs, isValidEmail, issues, false).rows
      == FailRepeatedly(rows, t.Key(), [dbNowUs])
  {
  }

  /** Per-iteration inputs of the worker loop: the two clocks, other workers' locks and the provider's answer. */
  datatype Tick = Tick(nowUs: int, dbNowUs: int, locked: set<TaskKey>, sendSucceeds: bool)

  /** How many outcomes are TaskCompleted, i.e. how many attempts got past the guard. */
  function CountCompleted(outcomes: seq<Result<ExecutionOutcome, WorkerError>>): nat {
    if outcomes == [] then 0
    else CountCompleted(outcomes[..|outcomes| - 1])
         + (if outcomes[|outcomes| - 1] == Ok(TaskCompleted) then 1 else 0)
  }

  /**
    One iteration of the worker loop as a relation between the table
    before and after it: an empty claim leaves the table alone and reports
    EmptyQueue; otherwise some claimable row was executed.
   */
  ghost predicate IterationStep(
    before: Table, tick: Tick, isValidEmail: string -> bool, issues: map<IssueId, NewsletterIssue>,
    outcome: Result<ExecutionOutcome, WorkerError>, after: Table)
  {
    || (before.Keys <= tick.locked && outcome == Ok(EmptyQueue) && after == before)
    || (exists t :: WellKeyed(before) && Claimable(before, tick.locked, t) &&
          var s := Execute(before, t, tick.nowUs, tick.dbNowUs, isValidEmail, issues, tick.sendSucceeds);
          s.result == outcome && s.rows == after)
  }

  /** Neither a new row nor an increase of tries: what any run of the worker keeps. */
  ghost predicate NoGrowth(before: Table, after: Table) {
    forall k :: k in after ==> k in before && after[k].leftSendingTries <= before[k].leftSendingTries
  }

  /**
    The first |outcomes| iterations of the worker loop, started on `start`:
    tables[j] is the table before iteration j, each iteration is an
    IterationStep, slept as SleepAfter says, and the run spent at least one
    unit of potential per attempt past the guard without adding rows or tries.
   */
  ghost predicate LoopTrace(
    start: Table, ticks: seq<Tick>, isValidEmail: string -> bool, issues: map<IssueId, NewsletterIssue>,
    outcomes: seq<Result<ExecutionOutcome, WorkerError>>, sleeps: seq<Option<Duration>>, tables: seq<Table>)
  {
    && |outcomes| == |sleeps| <= |ticks|
    && |tables| == |outcomes| + 1
    && tables[0] == start
    && (forall j :: 0 <= j < |outcomes| ==>
          IterationStep(tables[j], ticks[j], isValidEmail, issues, outcomes[j], tables[j + 1]))
    && (forall j :: 0 <= j < |outcomes| ==> sleeps[j] == SleepAfter(outcomes[j]))
    && NoGrowth(start, tables[|outcomes|])
    && Potential(tables[|outcomes|]) + CountCompleted(outcomes) <= Potential(start)
  }

  /** One more call of try_execute_task, as TryExecuteTask states it, extends the trace. */
  lemma LoopTraceExtend(
    start: Table, ticks: seq<Tick>, isValidEmail: string -> bool, issues: map<IssueId, NewsletterIssue>,
    outcomes: seq<Result<ExecutionOutcome, WorkerError>>, sleeps: seq<Option<Duration>>, tables: seq<Table>,
    result: Result<ExecutionOutcome, WorkerError>, claimed: Option<Task>, after: Table)
    requires LoopTrace(start, ticks, isValidEmail, issues, outcomes, sleeps, tables)
    requires |outcomes| < |ticks|
    requires WellKeyed(tables[|outcomes|])
    requires var before, tick := tables[|outcomes|], ticks[|outcomes|];
      && (claimed.None? <==> before.Keys <= tick.locked)
      && (claimed.None? ==> result == Ok(EmptyQueue) && after == before)
      && (claimed.Some? ==>
            && Claimable(before, tick.locked, claimed.value)
            && var s := Execute(before, claimed.value, tick.nowUs, tick.dbNowUs, isValidEmail, issues, tick.sendSucceeds);
               s.result == result && s.rows == after)
    ensures LoopTrace(start, ticks, isValidEmail, issues,
      outcomes + [result], sleeps + [SleepAfter(result)], tables + [after])
  {
    var i := |outcomes|;
    var before, tick := tables[i], ticks[i];
    if claimed.Some? {
      ExecuteDecreasesPotential(before, claimed.value, tick.nowUs, tick.dbNowUs, isValidEmail, issues, tick.sendSucceeds);
    }
    assert IterationStep(before, tick, isValidEmail, issues, result, after);
    assert (outcomes + [result])[..i] == outcomes;
  }

  // ---------------------------------------------------------------------
  // The table and the worker's operations on it

  class DeliveryQueue {
    var rows: Table

    ghost predicate Valid()
      reads this
    {
      WellKeyed(rows)
    }

    constructor (initial: Table)
      requires WellKeyed(initial)
      ensures Valid() && rows == initial
    {
      rows := initial;
    }

    /**
      dequeue_task: claim any one row that no other transaction holds
      (SELECT ... FOR UPDATE SKIP LOCKED LIMIT 1, with no eligibility
      filter); none exactly when every row is locked or there is none.
     */
    method DequeueTask(locked: set<TaskKey>) returns (task: Option<Task>)
      requires Valid()
      ensures task.None? <==> rows.Keys <= locked
      ensures task.Some? ==> Claimable(rows, locked, task.value)
    {
      if rows.Keys <= locked {
        task := None;
      } else {
        var key :| key in rows && key !in locked;
        task := Some(rows[key]);
      }
    }

    /** delete_task: remove the row of (issue id, e-mail) and commit. */
    method DeleteTask(issueId: IssueId, email: string)
      requires Valid()
      modifies this
      ensures Valid()
      ensures rows == DeleteRow(old(rows), TaskKey(issueId, email))
    {
      rows := rows - {TaskKey(issueId, email)};
    }

    /** update_issue_delivery_left_tries: set the tries, stamp the attempt time, commit. */
    method UpdateIssueDeliveryLeftTries(issueId: IssueId, email: string, numberOfTries: Int32, dbNowUs: int)
      requires Valid()
      modifies this
      ensures Valid()
      ensures rows == UpdateLeftTries(old(rows), TaskKey(issueId, email), numberOfTries, dbNowUs)
    {
      var key := TaskKey(issueId, email);
      if key in rows {
        rows := rows[key := rows[key].(leftSendingTries := numberOfTries, executeLastTime := Some(dbNowUs))];
      }
    }

    /** get_issue_delivery_left_tries: the row's tries, or an error when there is no such row. */
    method GetIssueDeliveryLeftTries(issueId: IssueId, email: string) returns (r: Result<Int32, StoreError>)
      ensures r.Ok? <==> TaskKey(issueId, email) in rows
      ensures r.Ok? ==> r.value == rows[TaskKey(issueId, email)].leftSendingTries
      ensures r.Err? ==> r.error == RowNotFound
    {
      var key := TaskKey(issueId, email);
      if key in rows {
        r := Ok(rows[key].leftSendingTries);
      } else {
        r := Err(RowNotFound);
      }
    }

    /**
      try_execute_task: claim a row, then run the guard, the send and the
      resolution on it. `claimed` reports which row the dequeue chose.
     */
    method TryExecuteTask(
      nowUs: int, dbNowUs: int, locked: set<TaskKey>,
      isValidEmail: string -> bool, issues: map<IssueId, NewsletterIssue>, sendSucceeds: bool)
      returns (result: Result<ExecutionOutcome, WorkerError>, claimed: Option<Task>, sent: Option<EmailMessage>)
      requires Valid()
      modifies this
      ensures Valid()
      ensures claimed.None? <==> old(rows).Keys <= locked
      ensures claimed.None? ==> result == Ok(EmptyQueue) && rows == old(rows) && sent.None?
      ensures claimed.Some? ==>
        && Claimable(old(rows), locked, claimed.value)
        && Step(result, rows, sent) == Execute(old(rows), claimed.value, nowUs, dbNowUs, isValidEmail, issues, sendSucceeds)
    {
      claimed := DequeueTask(locked);
      if claimed.None? {
        return Ok(EmptyQueue), claimed, None;
      }
      var task := claimed.value;
      if task.executeLastTime.Some? {
        var timeUs := task.executeLastTime.value + PostponementMicros(task.executeAfterDuration);
        if timeUs > nowUs {
          return Ok(TaskPostponed), claimed, None;
        }
      }
      var executionOutcome;
      if isValidEmail(task.subscriberEmail) {
        var issue := GetIssue(issues, task.newsletterIssueId);
        if issue.Err? {
          return Err(issue.error), claimed, None;
        }
        sent := Some(EmailMessage(task.subscriberEmail, issue.value.title, issue.value.htmlContent, issue.value.textContent));
        executionOutcome := if sendSucceeds then TaskCompleted else TaskPostponed;
      } else {
        sent := None;
        executionOutcome := TaskPostponed;
      }
      if executionOutcome == TaskCompleted {
        DeleteTask(task.newsletterIssueId, task.subscriberEmail);
      } else if task.leftSendingTries <= 0 {
        DeleteTask(task.newsletterIssueId, task.subscriberEmail);
      } else {
        var newTries := task.leftSendingTries - 1;
        UpdateIssueDeliveryLeftTries(task.newsletterIssueId, task.subscriberEmail, newTries, dbNowUs);
      }
      result := Ok(TaskCompleted);
    }

    /**
      worker_loop, run for one iteration per tick (the source loops until
      the process stops). Each iteration's sleep follows SleepAfter; the
      table never grows, and the number of attempts that got past the
      guard is bounded by the potential the table started with.
     */
    method WorkerLoop(ticks: seq<Tick>, isValidEmail: string -> bool, issues: map<IssueId, NewsletterIssue>)
      returns (outcomes: seq<Result<ExecutionOutcome, WorkerError>>, sleeps: seq<Option<Duration>>, ghost tables: seq<Table>)
      requires Valid()
      modifies this
      ensures Valid()
      ensures |outcomes| == |sleeps| == |ticks|
      // tables[i] is the table before iteration i; each iteration is one try_execute_task on it
      ensures |tables| == |ticks| + 1 && tables[0] == old(rows) && tables[|ticks|] == rows
      ensures forall i :: 0 <= i < |ticks| ==>
        IterationStep(tables[i], ticks[i], isValidEmail, issues, outcomes[i], tables[i + 1])
      ensures forall i :: 0 <= i < |ticks| ==> sleeps[i] == SleepAfter(outcomes[i])
      ensures NoGrowth(old(rows), rows)
      ensures Potential(rows) + CountCompleted(outcomes) <= old(Potential(rows))
    {
      outcomes, sleeps, tables := [], [], [rows];
      var i := 0;
      while i < |ticks|
        invariant Valid()
        invariant i == |outcomes| <= |ticks|
        invariant LoopTrace(old(rows), ticks, isValidEmail, issues, outcomes, sleeps, tables)
        invariant tables[i] == rows
      {
        var tick := ticks[i];
        var result, claimed, _ := TryExecuteTask(tick.nowUs, tick.dbNowUs, tick.locked, isValidEmail, issues, tick.sendSucceeds);
        LoopTraceExtend(old(rows), ticks, isValidEmail, issues, outcomes, sleeps, tables, result, claimed, rows);
        outcomes := outcomes + [result];
        sleeps := sleeps + [SleepAfter(result)];
        tables := tables + [rows];
        i := i + 1;
      }
    }
  }
}
