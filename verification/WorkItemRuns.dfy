/** What every run of requests on one work item keeps. */
module WorkItemRuns {
  import opened Approvals
  import opened Common
  import opened WorkItems

  datatype Call = Call(request: Request, actor: string, now: int)

  /** The item before each request and after the last, and the answers, of a run that starts at `items[0]`. */
  ghost predicate IsRun(items: seq<Item>, replies: seq<Reply>, calls: seq<Call>) {
    && |items| == |calls| + 1 && |replies| == |calls|
    && forall i :: 0 <= i < |calls| ==>
         (replies[i], items[i + 1]) == Handle(items[i], calls[i].request, calls[i].actor, calls[i].now)
  }

  /** The item as POST /work-items leaves it. */
  ghost predicate IsNew(item: Item) {
    && item.externalSystem == None && item.externalRecordId == None && item.idempotencyKey == None
    && |item.history| == 1
    && item.history[0].fromState == None && item.history[0].toState == Some(item.status)
  }

  lemma CreatedIsNew(status: Status, approval: Approval, execution: Execution, outcome: Option<string>,
                     details: map<string, string>,
                     actor: string, now: int)
    ensures IsNew(Created(status, approval, execution, outcome, details, actor, now))
  {
  }

  /******* The table, the checks and the offered actions agree, except in one case *******/

  /** The texts and the date the action uses are there and can be read. */
  predicate WellFilled(p: Payload) {
    && (p.action in {Dismiss, Reject} ==> NonBlank(p.reason))
    && (p.action == RecordOutcome ==> NonBlank(p.outcome) && p.followUp != Unparseable)
  }

  /**
   For every role that may write at all, a transition is accepted exactly when it is well filled and either offered
   or the dismissal of an approved item: that one is offered to admins only but accepted from anyone.
   */
  lemma AcceptedExactlyWhenOffered(item: Item, p: Payload, role: Role)
    requires role != Viewer
    ensures Check(item, p, role) == Applied
            <==> WellFilled(p) && (Allowed(item, role, p.action) || (p.action == Dismiss && item.status == Approved))
  {
    assert NextStatus(Approved, Dismiss) == Some(Dismissed);
    assert p.action == Verify && NextStatus(item.status, Verify).Some? ==> item.status == Executed;
  }

  /** A refused request leaves the stored item as it was; only a failed HubSpot write (502) is on record. */
  lemma RefusedChangesNothing(item: Item, r: Request, actor: string, now: int)
    ensures var (reply, item') := Handle(item, r, actor, now);
            && (reply.Duplicate? || (reply.Error? && reply.code != 502) ==> item' == item)
            && (reply == Error(502) <==>
                  StartsWrite(item, r) && !r.task.result.ProcessDied? && item'.execution == Failed && !HasTask(item'))
  {
  }

  /******* One HubSpot task per item *******/

  /** Either nothing external yet, or a HubSpot task. */
  predicate ExternalOk(item: Item) {
    (item.externalSystem == None && item.externalRecordId == None) || HasTask(item)
  }

  lemma HandleKeepsTask(item: Item, r: Request, actor: string, now: int)
    requires ExternalOk(item)
    ensures var item' := Handle(item, r, actor, now).1;
            && ExternalOk(item')
            && (HasTask(item) ==>
                item'.externalSystem == item.externalSystem && item'.externalRecordId == item.externalRecordId
                                  && item'.idempotencyKey == item.idempotencyKey)
  {
  }

  lemma {:induction false} ExternalStaysOk(items: seq<Item>, replies: seq<Reply>, calls: seq<Call>, n: nat)
    requires IsRun(items, replies, calls) && IsNew(items[0]) && n < |items|
    ensures ExternalOk(items[n])
  {
    if n > 0 {
      ExternalStaysOk(items, replies, calls, n - 1);
      HandleKeepsTask(items[n - 1], calls[n - 1].request, calls[n - 1].actor, calls[n - 1].now);
    }
  }

  /**
   Once an item has a HubSpot task, the task id and the key that won never change again, through reopening
   and whatever else; the winning key is answered with the stored id, and any other key is refused, both
   without changing the item.
   */
  lemma {:induction false} TaskIsFinal(items: seq<Item>, replies: seq<Reply>, calls: seq<Call>, m: nat, n: nat)
    requires IsRun(items, replies, calls) && IsNew(items[0]) && m <= n < |items| && items[m].externalRecordId.Some?
    ensures HasTask(items[n])
    ensures items[n].externalRecordId == items[m].externalRecordId && items[n].idempotencyKey == items[m].idempotencyKey
    ensures forall t: TaskRequest, actor: string, now: int :: TaskScreen(t).None? ==>
              Handle(items[n], ExecuteTask(t), actor, now)
              == (if items[m].idempotencyKey == Some(t.key) then Duplicate(items[m].externalRecordId.value)
                  else Error(409), items[n])
  {
    ExternalStaysOk(items, replies, calls, m);
    if m < n {
      TaskIsFinal(items, replies, calls, m, n - 1);
      HandleKeepsTask(items[n - 1], calls[n - 1].request, calls[n - 1].actor, calls[n - 1].now);
    }
  }

  /******* Approval provenance *******/

  /** What an answered request means for the approval. */
  function DecisionOf(r: Request, reply: Reply): Decision {
    if r.Transition? && reply == Ok then
      if r.payload.action == Approve && MayDecide(r.role) then Grants
      else if r.payload.action in {RequestApproval, Reject, Reopen} then Withdraws
      else Neither
    else Neither
  }

  ghost function Decisions(replies: seq<Reply>, calls: seq<Call>): seq<Decision>
    requires |replies| == |calls|
  {
    seq(|calls|, i requires 0 <= i < |calls| => DecisionOf(calls[i].request, replies[i]))
  }

  /** The only requests that change the approval are accepted decisions, and only a cro or admin can grant it. */
  lemma HandleMovesApproval(item: Item, r: Request, actor: string, now: int)
    ensures var (reply, item') := Handle(item, r, actor, now);
            item'.approval == Granted <==> Carries(item.approval == Granted, DecisionOf(r, reply))
  {
  }

  /** The item reads "approved" exactly while an approval stands. */
  lemma {:induction false} ApprovedExactlyWhileStanding(items: seq<Item>, replies: seq<Reply>, calls: seq<Call>, n: nat)
    requires IsRun(items, replies, calls) && n < |items| && items[0].approval != Granted
    ensures items[n].approval == Granted <==> Stands(Decisions(replies, calls), n)
  {
    if n > 0 {
      ApprovedExactlyWhileStanding(items, replies, calls, n - 1);
      StandsNext(Decisions(replies, calls), n - 1);
      HandleMovesApproval(items[n - 1], calls[n - 1].request, calls[n - 1].actor, calls[n - 1].now);
    }
  }

  /** The request gets as far as writing to HubSpot. */
  predicate StartsWrite(item: Item, r: Request) {
    r.ExecuteTask? && TaskScreen(r.task).None? && !HasTask(item) && ApprovalGate(item)
  }

  /** Approval provenance: no write to HubSpot starts unless a standing approval by a cro or admin allows it. */
  lemma WritesAreApproved(items: seq<Item>, replies: seq<Reply>, calls: seq<Call>, n: nat)
    requires IsRun(items, replies, calls) && n < |calls| && items[0].approval != Granted
    requires StartsWrite(items[n], calls[n].request)
    ensures Stands(Decisions(replies, calls), n)
  {
    ApprovedExactlyWhileStanding(items, replies, calls, n);
  }

  /******* Positions in the lifecycle *******/

  function Position(s: Status): nat {
    match s
    case Detected => 0
    case Triaged => 1
    case Prepared => 2
    case AwaitingApproval => 3
    case Approved => 4
    case InProgress => 5
    case Executed => 6
    case Verified => 7
    case OutcomeRecorded => 8
    case Dismissed => 9
    case Closed => 9
  }

  datatype Move = Forward | Reopening | Rejection | Restart | Stay | Other

  function MoveBetween(a: Status, b: Status): Move {
    if a == b then Stay
    else if Position(a) < Position(b) then Forward
    else if a in {Dismissed, Closed} && b == Triaged then Reopening
    else if a == AwaitingApproval && b == Prepared then Rejection
    else if a == Executed && b == InProgress then Restart
    else Other
  }

  function MoveOf(e: Entry): Move {
    if e.fromState.Some? && e.toState.Some? then MoveBetween(e.fromState.value, e.toState.value) else Other
  }

  /******* The audit history *******/

  /** Replays a history from a state: each entry must start where the one before ended. */
  function Replay(start: Option<Status>, history: seq<Entry>): Option<Option<Status>> {
    if history == [] then Some(start)
    else
      var last := history[|history| - 1];
      var before := Replay(start, history[..|history| - 1]);
      if before == Some(last.fromState) then Some(last.toState) else None
  }

  function StartOf(item: Item): Option<Status> {
    if item.history == [] then Some(item.status) else item.history[0].fromState
  }

  /** What is left of the history replays without a gap to the item's current status. */
  predicate AuditOk(item: Item) {
    Replay(StartOf(item), item.history) == Some(Some(item.status))
  }

  /** The history is in time order, up to now. */
  predicate InOrder(history: seq<Entry>, now: int) {
    && (forall i :: 0 <= i < |history| ==> history[i].timestamp.Some? && history[i].timestamp.value <= now)
    && (forall i, j :: 0 <= i < j < |history| ==> history[i].timestamp.value <= history[j].timestamp.value)
  }

  /** Every audited change keeps both. */
  lemma AuditedKeepsAudit(before: Item, after: Item, action: string, actor: string, now: int)
    requires AuditOk(before) && InOrder(before.history, now)
    ensures AuditOk(Audited(before, after, action, actor, now))
        && InOrder(Audited(before, after, action, actor, now).history, now)
  {
    var history := Audited(before, after, action, actor, now).history;
    assert history[..|history| - 1] == before.history;
    ReplayFront(before.history, history);
  }

  lemma ReplayFront(before: seq<Entry>, history: seq<Entry>)
    requires |history| == |before| + 1 && history[..|before|] == before
    ensures before != [] ==> history[0] == before[0]
  {
    assert before != [] ==> history[0] == history[..|before|][0];
  }

  /** Where a history in time order stops being too old. */
  function FirstKept(history: seq<Entry>, cutoff: int): (k: nat)
    requires forall i :: 0 <= i < |history| ==> history[i].timestamp.Some?
    ensures k <= |history|
    ensures forall i :: 0 <= i < k ==> history[i].timestamp.value < cutoff
    ensures k < |history| ==> history[k].timestamp.value >= cutoff
  {
    if history == [] || history[0].timestamp.value >= cutoff then 0 else 1 + FirstKept(history[1..], cutoff)
  }

  lemma {:induction false} KeptAppend(a: seq<Entry>, b: seq<Entry>, cutoff: int)
    ensures Kept(a + b, cutoff) == Kept(a, cutoff) + Kept(b, cutoff)
  {
    if b == [] {
      assert a + b == a;
    } else {
      assert (a + b)[..|a + b| - 1] == a + b[..|b| - 1];
      KeptAppend(a, b[..|b| - 1], cutoff);
    }
  }

  lemma {:induction false} KeptAllOrNone(history: seq<Entry>, cutoff: int)
    ensures (forall i :: 0 <= i < |history| ==>
             history[i].timestamp.Some? && history[i].timestamp.value >= cutoff) ==> Kept(history, cutoff) == history
    ensures (forall i :: 0 <= i < |history| ==>
             history[i].timestamp.Some? && history[i].timestamp.value < cutoff) ==> Kept(history, cutoff) == []
  {
    if history != [] {
      KeptAllOrNone(history[..|history| - 1], cutoff);
    }
  }

  lemma KeptOfSplit(stale: seq<Entry>, recent: seq<Entry>, cutoff: int)
    requires forall i :: 0 <= i < |stale| ==> stale[i].timestamp.Some? && stale[i].timestamp.value < cutoff
    requires forall i :: 0 <= i < |recent| ==> recent[i].timestamp.Some? && recent[i].timestamp.value >= cutoff
    ensures Kept(stale + recent, cutoff) == recent
  {
    KeptAppend(stale, recent, cutoff);
    KeptAllOrNone(stale, cutoff);
    KeptAllOrNone(recent, cutoff);
  }

  /** Of a history in time order a purge keeps a suffix: exactly the entries that are not too old. */
  lemma KeptIsSuffix(history: seq<Entry>, cutoff: int, now: int)
    requires InOrder(history, now)
    ensures Kept(history, cutoff) == history[FirstKept(history, cutoff)..]
  {
    var k := FirstKept(history, cutoff);
    TailIsRecent(history, k, cutoff, now);
    assert history == history[..k] + history[k..];
    KeptOfSplit(history[..k], history[k..], cutoff);
  }

  lemma TailIsRecent(history: seq<Entry>, k: nat, cutoff: int, now: int)
    requires InOrder(history, now) && k <= |history| && (k < |history| ==> history[k].timestamp.value >= cutoff)
    ensures forall i :: 0 <= i < |history[k..]| ==>
        history[k..][i].timestamp.Some? && history[k..][i].timestamp.value >= cutoff
  {
    forall i | 0 <= i < |history[k..]|
      ensures history[k..][i].timestamp.Some? && history[k..][i].timestamp.value >= cutoff
    {
      assert history[k..][i] == history[k + i];
      assert i > 0 ==> history[k].timestamp.value <= history[k + i].timestamp.value;
    }
  }

  lemma {:induction false} ReplaySuffix(start: Option<Status>, history: seq<Entry>, k: nat)
    requires k < |history| && Replay(start, history).Some?
    ensures Replay(history[k].fromState, history[k..]) == Replay(start, history)
  {
    var last := |history| - 1;
    if k < last {
      ReplaySuffix(start, history[..last], k);
      assert history[k..][..last - k] == history[..last][k..];
    } else {
      assert history[k..] == [history[last]];
      assert history[k..][..0] == [];
    }
  }

  lemma PurgeKeepsAudit(item: Item, cutoff: int, now: int)
    requires AuditOk(item) && InOrder(item.history, now)
    ensures var item' := item.(history := Kept(item.history, cutoff)); AuditOk(item') && InOrder(item'.history, now)
  {
    KeptIsSuffix(item.history, cutoff, now);
    if FirstKept(item.history, cutoff) < |item.history| {
      ReplaySuffix(StartOf(item), item.history, FirstKept(item.history, cutoff));
    }
  }

  /** The request leaves the item alone, or makes one audited change of it along a move the lifecycle knows. */
  ghost predicate OneChange(item: Item, item': Item, now: int) {
    || item' == item
    || exists after, action, actor ::
        item' == Audited(item, after, action, actor, now) && MoveBetween(item.status, after.status) != Other
  }

  lemma TransitionIsOneChange(item: Item, p: Payload, role: Role, actor: string, now: int)
    ensures OneChange(item, Handle(item, Transition(p, role), actor, now).1, now)
  {
    if Check(item, p, role) == Applied {
      assert Handle(item, Transition(p, role), actor, now).1
          == Audited(item, Apply(item, p), EventType(p.action), actor, now);
      TransitionMoves(item, p);
    }
  }

  lemma TransitionMoves(item: Item, p: Payload)
    requires NextStatus(item.status, p.action).Some?
    ensures MoveBetween(item.status, Apply(item, p).status) != Other
  {
  }

  lemma HandleIsOneChange(item: Item, r: Request, actor: string, now: int)
    requires !r.ExecuteTask? && !r.PurgeAudit?
    ensures OneChange(item, Handle(item, r, actor, now).1, now)
  {
    var item' := Handle(item, r, actor, now).1;
    if r.Transition? {
      TransitionIsOneChange(item, r.payload, r.role, actor, now);
    } else if item' != item {
      var last := item'.history[|item'.history| - 1];
      assert item' == Audited(item, item', last.action, last.actor, now);
    }
  }

  lemma HandleKeepsAudit(item: Item, r: Request, actor: string, now: int)
    requires AuditOk(item) && InOrder(item.history, now)
    ensures var item' := Handle(item, r, actor, now).1; AuditOk(item') && InOrder(item'.history, now)
  {
    var item' := Handle(item, r, actor, now).1;
    if r.ExecuteTask? {
      HandleTaskKeepsAudit(item, r.task, actor, now);
    } else if r.PurgeAudit? {
      PurgeKeepsAudit(item, r.cutoff, now);
    } else {
      HandleIsOneChange(item, r, actor, now);
      if item' != item {
        var after, action, who :| item' == Audited(item, after, action, who, now)
            && MoveBetween(item.status, after.status) != Other;
        AuditedKeepsAudit(item, after, action, who, now);
      }
    }
  }

  lemma HandleTaskKeepsAudit(item: Item, t: TaskRequest, actor: string, now: int)
    requires AuditOk(item) && InOrder(item.history, now)
    ensures var item' := HandleTask(item, t, actor, now).1; AuditOk(item') && InOrder(item'.history, now)
  {
    if StartsWrite(item, ExecuteTask(t)) {
      var started := TaskStarted(item, t, actor, now);
      AuditedKeepsAudit(item, started, "hubspot_task_execute_started", actor, now);
      TaskFinishedKeepsAudit(started, t.result, actor, now);
    }
  }

  lemma TaskFinishedKeepsAudit(item: Item, result: TaskResult, actor: string, now: int)
    requires AuditOk(item) && InOrder(item.history, now)
    ensures var item' := TaskFinished(item, result, actor, now); AuditOk(item') && InOrder(item'.history, now)
  {
    if !result.ProcessDied? {
      var finished := TaskFinished(item, result, actor, now);
      AuditedKeepsAudit(item, finished, finished.history[|finished.history| - 1].action, actor, now);
    }
  }

  lemma {:induction false} AuditReplays(items: seq<Item>, replies: seq<Reply>, calls: seq<Call>, n: nat, now: int)
    requires IsRun(items, replies, calls) && IsNew(items[0]) && n < |items|
    requires InOrder(items[0].history, if |calls| > 0 then calls[0].now else now)
    requires forall i, j :: 0 <= i < j < |calls| ==> calls[i].now <= calls[j].now
    requires forall i :: 0 <= i < |calls| ==> calls[i].now <= now
    ensures AuditOk(items[n]) && InOrder(items[n].history, if n < |calls| then calls[n].now else now)
  {
    if n > 0 {
      AuditReplays(items, replies, calls, n - 1, now);
      HandleKeepsAudit(items[n - 1], calls[n - 1].request, calls[n - 1].actor, calls[n - 1].now);
    } else {
      assert items[0].history[..0] == [];
    }
  }

  /** Every request but a purge only appends to the history. */
  lemma HandleAppends(item: Item, r: Request, actor: string, now: int)
    requires !r.PurgeAudit?
    ensures item.history <= Handle(item, r, actor, now).1.history
  {
  }

  lemma {:induction false} HistoryIsAppendOnly(items: seq<Item>, replies: seq<Reply>, calls: seq<Call>, m: nat, n: nat)
    requires IsRun(items, replies, calls) && m <= n < |items|
    requires forall i :: m <= i < n ==> !calls[i].request.PurgeAudit?
    ensures items[m].history <= items[n].history
  {
    if m < n {
      HistoryIsAppendOnly(items, replies, calls, m, n - 1);
      HandleAppends(items[n - 1], calls[n - 1].request, calls[n - 1].actor, calls[n - 1].now);
    }
  }

  /** The item's history replays from a state to its status. */
  predicate ReplaysFrom(start: Option<Status>, item: Item) { Replay(start, item.history) == Some(Some(item.status)) }

  lemma AuditedReplays(start: Option<Status>, before: Item, after: Item, action: string, actor: string, now: int)
    requires ReplaysFrom(start, before)
    ensures ReplaysFrom(start, Audited(before, after, action, actor, now))
  {
    var history := Audited(before, after, action, actor, now).history;
    assert history[..|history| - 1] == before.history;
  }

  lemma TaskFinishedReplays(start: Option<Status>, item: Item, result: TaskResult, actor: string, now: int)
    requires ReplaysFrom(start, item)
    ensures ReplaysFrom(start, TaskFinished(item, result, actor, now))
  {
    if !result.ProcessDied? {
      var finished := TaskFinished(item, result, actor, now);
      AuditedReplays(start, item, finished, finished.history[|finished.history| - 1].action, actor, now);
    }
  }

  /** Whatever the clock says, every request but a purge keeps the history replayable from where it was. */
  lemma HandleReplays(start: Option<Status>, item: Item, r: Request, actor: string, now: int)
    requires ReplaysFrom(start, item) && !r.PurgeAudit?
    ensures ReplaysFrom(start, Handle(item, r, actor, now).1)
  {
    var item' := Handle(item, r, actor, now).1;
    if r.ExecuteTask? {
      if StartsWrite(item, r) {
        var started := TaskStarted(item, r.task, actor, now);
        AuditedReplays(start, item, started, "hubspot_task_execute_started", actor, now);
        TaskFinishedReplays(start, started, r.task.result, actor, now);
      }
    } else {
      HandleIsOneChange(item, r, actor, now);
      if item' != item {
        var after, action, who :| item' == Audited(item, after, action, who, now)
            && MoveBetween(item.status, after.status) != Other;
        AuditedReplays(start, item, after, action, who, now);
      }
    }
  }

  /**
   Without purges the whole history, from the item's creation, replays to its current status, whatever the clock
   does.
   */
  lemma {:induction false} WholeHistoryReplays(items: seq<Item>, replies: seq<Reply>, calls: seq<Call>, n: nat)
    requires IsRun(items, replies, calls) && IsNew(items[0]) && n < |items|
    requires forall i :: 0 <= i < |calls| ==> !calls[i].request.PurgeAudit?
    ensures ReplaysFrom(None, items[n])
  {
    if n > 0 {
      WholeHistoryReplays(items, replies, calls, n - 1);
      HandleReplays(None, items[n - 1], calls[n - 1].request, calls[n - 1].actor, calls[n - 1].now);
    } else {
      assert items[0].history[..0] == [];
    }
  }

  /******* How often an item can move forward *******/

  function Count(history: seq<Entry>, move: Move): nat {
    if history == [] then 0
    else Count(history[..|history| - 1], move) + (if MoveOf(history[|history| - 1]) == move then 1 else 0)
  }

  /** Each forward move climbs, and only reopening (by 8), rejection and restart (by 1) go down. */
  predicate Paid(item: Item, start: nat) {
    var h := item.history;
    Count(h, Forward) + start <= Position(item.status) + 8 * Count(h, Reopening) + Count(h, Rejection)
        + Count(h, Restart)
  }

  lemma AuditedIsPaid(before: Item, after: Item, action: string, actor: string, now: int, start: nat)
    requires Paid(before, start)
    requires MoveBetween(before.status, after.status) != Other
    ensures Paid(Audited(before, after, action, actor, now), start)
  {
    var history := Audited(before, after, action, actor, now).history;
    assert history[..|history| - 1] == before.history;
  }

  lemma HandleIsPaid(item: Item, r: Request, actor: string, now: int, start: nat)
    requires Paid(item, start) && !r.PurgeAudit?
    ensures Paid(Handle(item, r, actor, now).1, start)
  {
    var item' := Handle(item, r, actor, now).1;
    if r.ExecuteTask? {
      HandleTaskIsPaid(item, r.task, actor, now, start);
    } else {
      HandleIsOneChange(item, r, actor, now);
      if item' != item {
        var after, action, who :| item' == Audited(item, after, action, who, now)
            && MoveBetween(item.status, after.status) != Other;
        AuditedIsPaid(item, after, action, who, now, start);
      }
    }
  }

  lemma HandleTaskIsPaid(item: Item, t: TaskRequest, actor: string, now: int, start: nat)
    requires Paid(item, start)
    ensures Paid(HandleTask(item, t, actor, now).1, start)
  {
    if StartsWrite(item, ExecuteTask(t)) {
      var started := TaskStarted(item, t, actor, now);
      AuditedIsPaid(item, started, "hubspot_task_execute_started", actor, now, start);
      TaskFinishedIsPaid(started, t.result, actor, now, start);
    }
  }

  lemma TaskFinishedIsPaid(item: Item, result: TaskResult, actor: string, now: int, start: nat)
    requires Paid(item, start) && item.status == InProgress
    ensures Paid(TaskFinished(item, result, actor, now), start)
  {
    if !result.ProcessDied? {
      var finished := TaskFinished(item, result, actor, now);
      AuditedIsPaid(item, finished, finished.history[|finished.history| - 1].action, actor, now, start);
    }
  }

  lemma {:induction false} RunIsPaid(items: seq<Item>, replies: seq<Reply>, calls: seq<Call>, n: nat)
    requires IsRun(items, replies, calls) && IsNew(items[0]) && n < |items|
    requires forall i :: 0 <= i < |calls| ==> !calls[i].request.PurgeAudit?
    ensures Paid(items[n], Position(items[0].status))
  {
    if n > 0 {
      RunIsPaid(items, replies, calls, n - 1);
      HandleIsPaid(items[n - 1], calls[n - 1].request, calls[n - 1].actor, calls[n - 1].now, Position(items[0].status));
    } else {
      NewIsPaid(items[0]);
    }
  }

  lemma NewIsPaid(item: Item)
    requires IsNew(item)
    ensures Paid(item, Position(item.status))
  {
    assert item.history[..0] == [];
  }

  /**
   In every run without a purge the forward moves on record number at most what is left above the first status
   (at most 9), plus 8 for each reopening and 1 for each rejection and each restart from executed.
   */
  lemma ForwardMovesAreBounded(items: seq<Item>, replies: seq<Reply>, calls: seq<Call>, n: nat)
    requires IsRun(items, replies, calls) && IsNew(items[0]) && n < |items|
    requires forall i :: 0 <= i < |calls| ==> !calls[i].request.PurgeAudit?
    ensures var h := items[n].history;
            Count(h, Forward) <= 9 - Position(items[0].status) + 8 * Count(h, Reopening) + Count(h, Rejection)
                + Count(h, Restart)
  {
    RunIsPaid(items, replies, calls, n);
  }
}
