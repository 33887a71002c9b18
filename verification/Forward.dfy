/**
 Delivering one stored event to its destination (btx_platform/workers/forward.py).

 A forward commits the attempt, posts, and commits the outcome.  `Row` is everything the database
 holds about one event; a `Job` is the queued task that forwards it, with its Celery retry count and,
 as history, the replies its posts got and the attempts a crash cut short.
 */
module Forward {
  import opened Common

  datatype Status = Received | Processing | Done | Failed | Dead
  datatype Reply = Answer(code: int, body: Option<string>) | NetworkError(message: string)
  datatype ErrorText = Text(text: string) | HttpCode(code: Option<int>)

  datatype Event = Event(key: string, status: Status, attempts: nat, error: Option<ErrorText>)
  datatype LogRow = LogRow(attemptNo: nat, httpStatus: Option<int>, response: Option<string>)
  datatype Row = Row(event: Option<Event>, logs: seq<LogRow>, deadLetter: Option<ErrorText>)

  datatype Outcome = OutDone | OutFailed | OutDead

  predicate IsOk(reply: Reply) { reply.Answer? && 200 <= reply.code < 300 }

  function Take(s: string, n: nat): string { if |s| <= n then s else s[..n] }

  function HttpStatus(reply: Reply): Option<int> {
    if reply.Answer? then Some(reply.code) else None
  }

  function Body(reply: Reply): Option<string> {
    if reply.Answer? then reply.body else Some(reply.message)
  }

  function LogOf(attemptNo: nat, reply: Reply): LogRow {
    LogRow(attemptNo, HttpStatus(reply), if Body(reply).Some? then Some(Take(Body(reply).value, 4000)) else None)
  }

  function ErrorOf(reply: Reply): ErrorText {
    if Body(reply).Some? && Body(reply).value != "" then Text(Take(Body(reply).value, 2000))
        else HttpCode(HttpStatus(reply))
  }

  /** The first commit of a forward. */
  datatype Begun = EventMissing | NothingToSend(row: Row) | Attempting(row: Row, attemptNo: nat)

  function Begin(row: Row, hasDestination: bool): Begun {
    match row.event
    case None => EventMissing
    case Some(event) =>
      if !hasDestination then NothingToSend(row.(event := Some(event.(status := Done))))
      else Attempting(row.(event := Some(event.(attempts := event.attempts + 1, status := Processing))),
                      event.attempts + 1)
  }

  /** The second commit; it is refused when the row is gone or the event already has a dead letter. */
  datatype Finished = Refused | Committed(row: Row, outcome: Outcome)

  function Finish(row: Row, attemptNo: nat, reply: Reply, maxAttempts: int): Finished {
    match row.event
    case None => Refused
    case Some(event) =>
      var logs := row.logs + [LogOf(attemptNo, reply)];
      if IsOk(reply) then
        Committed(Row(Some(event.(status := Done, error := None)), logs, row.deadLetter), OutDone)
      else if attemptNo >= maxAttempts then
        if row.deadLetter.Some? then Refused
        else Committed(Row(Some(event.(status := Dead, error := Some(ErrorOf(reply)))), logs, Some(ErrorOf(reply))),
                       OutDead)
      else
        Committed(Row(Some(event.(status := Failed, error := Some(ErrorOf(reply)))), logs, row.deadLetter), OutFailed)
  }

  /** A log row says which attempt it was, what code came back, and at most 4000 characters of the text. */
  predicate LoggedAs(log: LogRow, attemptNo: nat, reply: Reply) {
    && log.attemptNo == attemptNo
    && log.httpStatus == (if reply.Answer? then Some(reply.code) else None)
    && (log.response == None <==> reply.Answer? && reply.body == None)
    && (log.response.Some? ==>
          var text := if reply.Answer? then reply.body.value else reply.message;
          log.response.value == if |text| <= 4000 then text else text[..4000])
  }

  /** An error is at most 2000 characters of the text, or the code when there is no text. */
  predicate ReportedAs(error: ErrorText, reply: Reply) {
    var text := if reply.NetworkError? then reply.message else if reply.body.Some? then reply.body.value else "";
    error == if text == "" then HttpCode(if reply.Answer? then Some(reply.code) else None)
             else Text(if |text| <= 2000 then text else text[..2000])
  }

  /**
   What a live event's row and the answer must be after a post: done exactly on a code from 200 to 299, failed exactly
   on another reply with attempts left, dead with a dead letter on the last one, and nothing saved when there is one
   already.
   */
  predicate Reports(before: Row, after: Row, attemptNo: nat, reply: Reply, maxAttempts: int, outcome: Option<Outcome>) {
    var delivered := reply.Answer? && 200 <= reply.code < 300;
    && before.event.Some? && after.event.Some? && after.event.value.attempts == attemptNo
    && (outcome == Some(OutDone) <==> delivered)
    && (outcome == Some(OutFailed) <==> !delivered && attemptNo < maxAttempts)
    && (outcome == None <==> !delivered && attemptNo >= maxAttempts && before.deadLetter.Some?)
    && (match outcome
        case None => after.event.value.status == Processing && after.logs == before.logs
        case Some(out) =>
          && after.event.value.status == (if out == OutDone then Done else if out == OutFailed then Failed else Dead)
          && after.event.value.error.None? == delivered
          && (!delivered ==> ReportedAs(after.event.value.error.value, reply))
          && |after.logs| == |before.logs| + 1 && after.logs[..|before.logs|] == before.logs
          && LoggedAs(after.logs[|before.logs|], attemptNo, reply))
    && after.deadLetter == if outcome == Some(OutDead) then after.event.value.error else before.deadLetter
  }

  lemma FinishReports(row: Row, attemptNo: nat, reply: Reply, maxAttempts: int)
    requires row.event.Some? && row.event.value.attempts == attemptNo && row.event.value.status == Processing
    ensures match Finish(row, attemptNo, reply, maxAttempts)
            case Refused => Reports(row, row, attemptNo, reply, maxAttempts, None)
            case Committed(row', out) => Reports(row, row', attemptNo, reply, maxAttempts, Some(out))
  {
  }

  /** Exponential backoff with a cap; `power` is base to the given exponent. */
  function Power(base: real, exponent: nat): real {
    if exponent == 0 then 1.0 else base * Power(base, exponent - 1)
  }

  function BackoffSeconds(attempt: int, base: real, cap: real): real {
    var delay := Power(base, if attempt > 1 then attempt else 1);
    if delay < cap then delay else cap
  }

  /******* The Celery task around the forward *******/

  /**
   Failing is a task whose failed attempt is committed and whose retry is not scheduled yet.  `lost`, `reruns` and
   `unsaved` are history: attempts cut short by a crash, redeliveries after an outcome was committed, and outcomes
   the database refused to commit.
   */
  datatype End = EndDone | EndDead | EndRaised | EndGaveUp
  datatype Phase = Idle | Posting(attemptNo: nat) | Replied(attemptNo: nat, reply: Reply) | Failing | Ended(end: End)
  datatype Job = Job(event: nat, retries: nat, phase: Phase, posts: seq<Reply>, lost: nat, reruns: nat, unsaved: nat)

  function NewJob(event: nat): Job { Job(event, 0, Idle, [], 0, 0, 0) }

  /** Tasks are acknowledged late: a worker that dies after its commit has its task delivered again. */
  datatype Action = DoBegin(hasDestination: bool) | DoPost(reply: Reply) | DoFinish | DoRetry | DoCrash | DoRedeliver

  predicate Enabled(job: Job, a: Action) {
    match a
    case DoBegin(_) => job.phase.Idle?
    case DoPost(_) => job.phase.Posting?
    case DoFinish => job.phase.Replied?
    case DoRetry => job.phase.Failing?
    case DoCrash => job.phase.Posting? || job.phase.Replied?
    case DoRedeliver => job.phase.Failing? || job.phase.Ended?
  }

  /** Neither a crash nor a redelivery. */
  predicate Smooth(a: Action) { !a.DoCrash? && !a.DoRedeliver? }

  /** `self.retry` with max_retries = maxAttempts: the task runs again unless its retries are used up. */
  function Retry(job: Job, maxAttempts: int): Job {
    if job.retries + 1 > maxAttempts then job.(phase := Ended(EndGaveUp))
    else job.(phase := Idle, retries := job.retries + 1)
  }

  /** One step of the task: what it leaves in the database and of itself. */
  function Act(row: Row, job: Job, a: Action, maxAttempts: int): (Row, Job)
    requires Enabled(job, a)
  {
    match a
    case DoBegin(hasDestination) => (
      match Begin(row, hasDestination)
      case EventMissing => (row, job.(phase := Failing))
      case NothingToSend(row') => (row', job.(phase := Ended(EndDone)))
      case Attempting(row', n) => (row', job.(phase := Posting(n))))
    case DoPost(reply) =>
      (row, job.(phase := Replied(job.phase.attemptNo, reply), posts := job.posts + [reply]))
    case DoFinish => (
      match Finish(row, job.phase.attemptNo, job.phase.reply, maxAttempts)
      case Refused => (row, job.(phase := Ended(EndRaised), unsaved := job.unsaved + 1))
      case Committed(row', OutDone) => (row', job.(phase := Ended(EndDone)))
      case Committed(row', OutDead) => (row', job.(phase := Ended(EndDead)))
      case Committed(row', OutFailed) => (row', job.(phase := Failing)))
    case DoRetry => (row, Retry(job, maxAttempts))
    case DoCrash => (row, job.(phase := Idle, lost := job.lost + 1))
    case DoRedeliver => (row, job.(phase := Idle, reruns := job.reruns + 1))
  }

  /******* The chain of attempts for one event *******/

  function Oks(posts: seq<Reply>): nat {
    if posts == [] then 0 else Oks(posts[..|posts| - 1]) + (if IsOk(posts[|posts| - 1]) then 1 else 0)
  }

  /** How many 2xx answers a chain may have had besides its last one. */
  function Extra(job: Job): nat { job.lost + job.reruns }

  /** How many posts a chain may make: max_attempts, at least one, and one more for each crash and each redelivery. */
  function Budget(job: Job, maxAttempts: int): nat {
    (if maxAttempts > 1 then maxAttempts else 1) + Extra(job)
  }

  /** Logged attempt numbers strictly increase and never exceed the counter. */
  predicate LogsIncrease(logs: seq<LogRow>, attempts: nat) {
    && (forall i, j :: 0 <= i < j < |logs| ==> logs[i].attemptNo < logs[j].attemptNo)
    && (forall i :: 0 <= i < |logs| ==> 1 <= logs[i].attemptNo <= attempts)
  }

  /** The row's books, with `settled` of its attempts no longer in flight: each is logged, lost or unsaved. */
  predicate Books(row: Row, job: Job, settled: nat, maxAttempts: int) {
    row.event.Some? ==>
      && settled == |row.logs| + job.lost + job.unsaved
      && LogsIncrease(row.logs, settled)
      && (row.event.value.status == Dead ==> row.deadLetter.Some?)
      && (row.deadLetter.Some? ==> settled >= maxAttempts && (job.reruns > 0 || job.phase.Ended?))
      && (job.unsaved > 0 ==> job.reruns > 0)
      && job.retries <= |row.logs|
  }

  /** The row while attempt n is in flight. */
  predicate InFlight(row: Row, job: Job, n: nat, maxAttempts: int) {
    && n >= 1 && Books(row, job, n - 1, maxAttempts)
    && (row.event.Some? ==> row.event.value.attempts == n && row.event.value.status == Processing)
  }

  predicate ChainOk(row: Row, job: Job, maxAttempts: int) {
    var budget := Budget(job, maxAttempts);
    match job.phase
    case Posting(n) =>
      && |job.posts| < n <= budget && Oks(job.posts) <= Extra(job)
      && InFlight(row, job, n, maxAttempts)
    case Replied(n, reply) =>
      && 0 < |job.posts| <= n <= budget
      && job.posts[|job.posts| - 1] == reply
      && Oks(job.posts[..|job.posts| - 1]) <= Extra(job)
      && InFlight(row, job, n, maxAttempts)
    case _ =>
      && |job.posts| <= budget && Oks(job.posts) <= Extra(job) + (if job.phase.Ended? then 1 else 0)
      && (row.event.Some? ==> RestsOk(row.event.value, row, job, maxAttempts))
  }

  /** A live event's row between two forwards. */
  predicate RestsOk(event: Event, row: Row, job: Job, maxAttempts: int) {
    var budget := Budget(job, maxAttempts);
    && Books(row, job, event.attempts, maxAttempts)
    && |job.posts| <= event.attempts <= budget
    && match job.phase
       case Idle => event.attempts < budget && (job.reruns == 0 ==> event.status !in {Done, Dead})
       case Failing => event.attempts < maxAttempts && job.retries < |row.logs| && event.status == Failed
       case Ended(EndDone) => event.status == Done
       case Ended(EndDead) => event.status == Dead
       case Ended(EndRaised) => job.reruns > 0
       case _ => false
  }

  /** A freshly queued event satisfies the invariant. */
  lemma FreshChainOk(row: Row, event: nat, maxAttempts: int)
    requires row.event.Some? ==> row.event.value.attempts == 0 && row.event.value.status == Received
                                 && row.logs == [] && row.deadLetter.None?
    ensures ChainOk(row, NewJob(event), maxAttempts)
  {
  }

  /** Every step of a worker, crashes and redeliveries included, keeps the chain's books. */
  lemma ActKeepsChain(row: Row, job: Job, a: Action, maxAttempts: int)
    requires Enabled(job, a) && ChainOk(row, job, maxAttempts)
    ensures var (row', job') := Act(row, job, a, maxAttempts); ChainOk(row', job', maxAttempts)
  {
    match a
    case DoBegin(_) => BeginKeepsChain(row, job, a, maxAttempts);
    case DoPost(_) => PostKeepsChain(row, job, a, maxAttempts);
    case DoFinish => FinishKeepsChain(row, job, maxAttempts);
    case DoRetry => RetryKeepsChain(row, job, maxAttempts);
    case DoCrash => CrashKeepsChain(row, job, maxAttempts);
    case DoRedeliver => RedeliverKeepsChain(row, job, maxAttempts);
  }

  lemma BeginKeepsChain(row: Row, job: Job, a: Action, maxAttempts: int)
    requires a.DoBegin? && Enabled(job, a) && ChainOk(row, job, maxAttempts)
    ensures var (row', job') := Act(row, job, a, maxAttempts); ChainOk(row', job', maxAttempts)
  {
  }

  lemma PostKeepsChain(row: Row, job: Job, a: Action, maxAttempts: int)
    requires a.DoPost? && Enabled(job, a) && ChainOk(row, job, maxAttempts)
    ensures var (row', job') := Act(row, job, a, maxAttempts); ChainOk(row', job', maxAttempts)
  {
    assert (job.posts + [a.reply])[..|job.posts|] == job.posts;
  }

  lemma RetryKeepsChain(row: Row, job: Job, maxAttempts: int)
    requires job.phase.Failing? && ChainOk(row, job, maxAttempts)
    ensures var (row', job') := Act(row, job, DoRetry, maxAttempts); ChainOk(row', job', maxAttempts)
  {
  }

  lemma RedeliverKeepsChain(row: Row, job: Job, maxAttempts: int)
    requires Enabled(job, DoRedeliver) && ChainOk(row, job, maxAttempts)
    ensures var (row', job') := Act(row, job, DoRedeliver, maxAttempts); ChainOk(row', job', maxAttempts)
  {
  }

  lemma CrashKeepsChain(row: Row, job: Job, maxAttempts: int)
    requires Enabled(job, DoCrash) && ChainOk(row, job, maxAttempts)
    ensures var (row', job') := Act(row, job, DoCrash, maxAttempts); ChainOk(row', job', maxAttempts)
  {
    if job.phase.Replied? {
      RepliedOks(job);
    }
  }

  lemma RepliedOks(job: Job)
    requires job.phase.Replied? && job.posts != [] && job.posts[|job.posts| - 1] == job.phase.reply
    ensures Oks(job.posts) == Oks(job.posts[..|job.posts| - 1]) + (if IsOk(job.phase.reply) then 1 else 0)
  {
  }

  lemma FinishKeepsChain(row: Row, job: Job, maxAttempts: int)
    requires job.phase.Replied? && ChainOk(row, job, maxAttempts)
    ensures var (row', job') := Act(row, job, DoFinish, maxAttempts); ChainOk(row', job', maxAttempts)
  {
    RepliedOks(job);
    FinishShape(row, job, maxAttempts);
    if row.event.Some? {
      FinishKeepsBooks(row, job, maxAttempts);
    }
  }

  /** How a post that was answered ends. */
  lemma FinishShape(row: Row, job: Job, maxAttempts: int)
    requires job.phase.Replied?
    ensures var (row', job') := Act(row, job, DoFinish, maxAttempts);
            && job'.posts == job.posts && job'.lost == job.lost && job'.reruns == job.reruns
                && job'.retries == job.retries
            && (row.event.None? ==> row' == row && job'.phase == Ended(EndRaised))
            && (row.event.Some? ==> row'.event.Some? && row'.event.value.attempts == row.event.value.attempts)
            && (job'.phase == Ended(EndDone) ==> row'.event.Some? && row'.event.value.status == Done)
            && (job'.phase == Ended(EndDead) ==>
                row'.event.Some? && row'.event.value.status == Dead && !IsOk(job.phase.reply))
            && (job'.phase == Ended(EndRaised) ==> row.event.None? || row.deadLetter.Some?)
            && (job'.phase.Failing? ==> row'.event.Some? && row'.event.value.status == Failed
                                        && job.phase.attemptNo < maxAttempts && !IsOk(job.phase.reply))
  {
  }

  /** What an outcome leaves of a live row's books: one log row more, or one unsaved attempt more. */
  lemma FinishKeepsBooks(row: Row, job: Job, maxAttempts: int)
    requires job.phase.Replied? && row.event.Some? && InFlight(row, job, job.phase.attemptNo, maxAttempts)
    ensures var (row', job') := Act(row, job, DoFinish, maxAttempts);
            && row'.event.Some? && Books(row', job', row'.event.value.attempts, maxAttempts)
            && row'.event.value.attempts == job.phase.attemptNo
            && (job'.phase.Failing? ==> |row'.logs| == |row.logs| + 1)
  {
    LogsExtend(row.logs, job.phase.attemptNo, job.phase.reply);
  }

  lemma LogsExtend(logs: seq<LogRow>, n: nat, reply: Reply)
    requires n >= 1 && LogsIncrease(logs, n - 1)
    ensures LogsIncrease(logs, n) && LogsIncrease(logs + [LogOf(n, reply)], n)
  {
  }

  /** Deleting the row (a purge) at any moment keeps the chain's bounds. */
  lemma PurgeKeepsChain(row: Row, job: Job, maxAttempts: int)
    requires ChainOk(row, job, maxAttempts)
    ensures ChainOk(Row(None, [], None), job, maxAttempts)
  {
  }

  /** What is left to do while the row lives: four steps for each attempt still in the budget. */
  function Rank(row: Row, job: Job, maxAttempts: int): int {
    match job.phase
    case Idle => if row.event.Some? then 4 * (Budget(job, maxAttempts) - row.event.value.attempts) else 0
    case Posting(n) => 4 * (Budget(job, maxAttempts) - n) + 3
    case Replied(n, _) => 4 * (Budget(job, maxAttempts) - n) + 2
    case Failing => if row.event.Some? then 4 * (Budget(job, maxAttempts) - row.event.value.attempts) + 1 else 0
    case Ended(_) => 0
  }

  /** How many steps, crashes and redeliveries included, a chain with these attempts can have taken. */
  predicate StepsPaid(row: Row, job: Job, steps: nat) {
    row.event.Some? ==>
      var paid := 4 * row.event.value.attempts + job.lost + 2 * job.reruns;
      match job.phase
      case Idle => steps <= paid
      case Posting(_) => steps + 3 <= paid
      case Replied(_, _) => steps + 2 <= paid
      case Failing => steps + 1 <= paid
      case Ended(_) => steps <= paid + 1
  }

  lemma ActIsPaid(row: Row, job: Job, a: Action, maxAttempts: int, steps: nat)
    requires Enabled(job, a) && StepsPaid(row, job, steps)
    ensures var (row', job') := Act(row, job, a, maxAttempts); StepsPaid(row', job', steps + 1)
  {
  }

  /** So with a budget of attempts every live chain has a bounded number of steps. */
  lemma PaidStepsAreBounded(row: Row, job: Job, maxAttempts: int, steps: nat)
    requires row.event.Some? && ChainOk(row, job, maxAttempts) && StepsPaid(row, job, steps)
    ensures steps <= 4 * Budget(job, maxAttempts) + job.lost + 2 * job.reruns + 1
  {
  }

  /**
   While the row lives, each smooth step comes strictly closer to the end, and a chain never redelivered ends
   done or dead.
   */
  lemma ActMakesProgress(row: Row, job: Job, a: Action, maxAttempts: int)
    requires Enabled(job, a) && ChainOk(row, job, maxAttempts) && row.event.Some? && Smooth(a)
    ensures var (row', job') := Act(row, job, a, maxAttempts);
            && row'.event.Some?
            && 0 <= Rank(row', job', maxAttempts) < Rank(row, job, maxAttempts)
            && (job'.phase.Ended? && job'.reruns == 0 ==> job'.phase.end in {EndDone, EndDead})
            && (Rank(row', job', maxAttempts) == 0 <==> job'.phase.Ended?)
  {
    ActKeepsChain(row, job, a, maxAttempts);
  }

  /** Celery's own limit is never what stops a live chain: a committed failure can always be retried. */
  lemma RetryIsAlwaysAllowed(row: Row, job: Job, maxAttempts: int)
    requires ChainOk(row, job, maxAttempts) && job.phase.Failing? && row.event.Some?
    ensures job.retries + 1 < maxAttempts
    ensures Act(row, job, DoRetry, maxAttempts).1.phase == Idle
  {
  }

  lemma {:induction false} PowerGrows(base: real, m: nat, n: nat)
    requires base >= 1.0 && m <= n
    ensures 1.0 <= Power(base, m) <= Power(base, n)
  {
    if m < n {
      PowerGrows(base, m, n - 1);
      assert base * Power(base, n - 1) >= 1.0 * Power(base, n - 1);
    } else if n > 0 {
      PowerGrows(base, 0, n - 1);
      assert base * Power(base, n - 1) >= 1.0 * Power(base, n - 1);
    }
  }

  /** The first wait is the base, up to the cap, */
  lemma FirstWaitIsBase(attempt: int, base: real, cap: real)
    requires attempt <= 1
    ensures BackoffSeconds(attempt, base, cap) == if base < cap then base else cap
  {
    assert Power(base, 1) == base * Power(base, 0);
  }

  /** and each later one the base times as long as the one before, up to the cap. */
  lemma BackoffIsExponential(attempt: int, base: real, cap: real)
    requires base >= 1.0 && cap >= 0.0 && attempt >= 1
    ensures var longer := base * BackoffSeconds(attempt, base, cap);
            BackoffSeconds(attempt + 1, base, cap) == if longer < cap then longer else cap
  {
    WaitIs(attempt, base, cap);
    WaitIs(attempt + 1, base, cap);
    PowerGrows(base, 0, attempt);
    Scaled(base, Power(base, attempt), cap);
  }

  lemma WaitIs(attempt: int, base: real, cap: real)
    requires attempt >= 1
    ensures BackoffSeconds(attempt, base, cap) == if Power(base, attempt) < cap then Power(base, attempt) else cap
    ensures Power(base, attempt) == base * Power(base, attempt - 1)
  {
  }

  /** Capping before or after the next step makes no difference. */
  lemma Scaled(base: real, delay: real, cap: real)
    requires base >= 1.0 && delay >= 0.0 && cap >= 0.0
    ensures var capped := if delay < cap then delay else cap;
            (if base * capped < cap then base * capped else cap) == if base * delay < cap then base * delay else cap
  {
    if cap <= delay {
      NoSmaller(base, cap);
      NoSmaller(base, delay);
    }
  }

  lemma NoSmaller(base: real, x: real)
    requires base >= 1.0 && x >= 0.0
    ensures base * x >= x
  {
    assert (base - 1.0) * x >= 0.0;
  }

  /** Waits never shrink from one retry to the next and never exceed the cap. */
  lemma BackoffIsMonotoneAndCapped(attempt: int, later: int, base: real, cap: real)
    requires base >= 1.0 && attempt <= later
    ensures BackoffSeconds(attempt, base, cap) <= BackoffSeconds(later, base, cap) <= cap
  {
    PowerGrows(base, if attempt > 1 then attempt else 1, if later > 1 then later else 1);
  }

  /******* A task delivered again after its final commit *******/

  /** A dead-lettered event that is no longer marked dead. */
  predicate Revived(row: Row) { row.event.Some? && row.deadLetter.Some? && row.event.value.status != Dead }

  /**
   A dead event is revived exactly when its task begins again, and stays so: the second failure cannot be
   committed.
   */
  lemma RevivedExactlyWhenBegunAgain(row: Row, job: Job, a: Action, maxAttempts: int)
    requires Enabled(job, a) && ChainOk(row, job, maxAttempts) && row.event.Some?
    ensures var row' := Act(row, job, a, maxAttempts).0;
            Revived(row') <==> Revived(row) || (a.DoBegin? && row.event.value.status == Dead)
  {
  }

  /**
   The task of a done event, redelivered and answered with 2xx, posts again: the bounds on posts and 2xx are
   reached.
   */
  lemma RedeliveredDonePostsAgain(row: Row, job: Job, reply: Reply, maxAttempts: int)
    requires ChainOk(row, job, maxAttempts) && job.phase == Ended(EndDone) && row.event.Some? && IsOk(reply)
    ensures var (r1, j1) := Act(row, job, DoRedeliver, maxAttempts);
            var (r2, j2) := Act(r1, j1, DoBegin(true), maxAttempts);
            j2.phase.Posting? &&
            var (r3, j3) := Act(r2, j2, DoPost(reply), maxAttempts);
            var (r4, j4) := Act(r3, j3, DoFinish, maxAttempts);
            && j4.phase == Ended(EndDone) && |j4.posts| == |job.posts| + 1 && Oks(j4.posts) == Oks(job.posts) + 1
            && Extra(j4) == Extra(job) + 1
  {
    assert (job.posts + [reply])[..|job.posts|] == job.posts;
  }

  /**
   The task of a dead event, redelivered and refused again, leaves it in processing with its dead letter and one
   unsaved attempt.
   */
  lemma RedeliveredDeadStaysInProcessing(row: Row, job: Job, reply: Reply, maxAttempts: int)
    requires ChainOk(row, job, maxAttempts) && job.phase == Ended(EndDead) && row.event.Some? && !IsOk(reply)
    ensures var (r1, j1) := Act(row, job, DoRedeliver, maxAttempts);
            var (r2, j2) := Act(r1, j1, DoBegin(true), maxAttempts);
            j2.phase.Posting? &&
            var (r3, j3) := Act(r2, j2, DoPost(reply), maxAttempts);
            var (r4, j4) := Act(r3, j3, DoFinish, maxAttempts);
            && j4.phase == Ended(EndRaised) && j4.unsaved == job.unsaved + 1 && |j4.posts| == |job.posts| + 1
            && r4.event.Some? && r4.event.value.status == Processing && r4.deadLetter == row.deadLetter
                && r4.logs == row.logs
  {
  }
}
