/**
 What each endpoint answers and stores, told action by action and status by status (btx_platform/api.py).

 The table of transitions and the functions of WorkItems do not occur in these statements: they say from outside
 what the table must come to.
 */
module WorkItemLaws {
  import opened Common
  import opened WorkItems
  import opened WorkItemRuns
  import Identifiers

  /******* Texts *******/

  ghost predicate HasText(s: string) { exists i :: 0 <= i < |s| && !Identifiers.IsSpace(s[i]) }

  lemma HasTextTail(s: string)
    requires s != "" && Identifiers.IsSpace(s[0])
    ensures HasText(s) <==> HasText(s[1..])
  {
    var rest := s[1..];
    if HasText(s) {
      var j :| 0 <= j < |s| && !Identifiers.IsSpace(s[j]);
      assert rest[j - 1] == s[j];
    }
    if HasText(rest) {
      var j :| 0 <= j < |rest| && !Identifiers.IsSpace(rest[j]);
      assert s[j + 1] == rest[j];
    }
  }

  lemma HasTextFront(s: string)
    requires s != "" && Identifiers.IsSpace(s[|s| - 1])
    ensures HasText(s) <==> HasText(s[..|s| - 1])
  {
    var before := s[..|s| - 1];
    if HasText(s) {
      var j :| 0 <= j < |s| && !Identifiers.IsSpace(s[j]);
      assert before[j] == s[j];
    }
    if HasText(before) {
      var j :| 0 <= j < |before| && !Identifiers.IsSpace(before[j]);
      assert s[j] == before[j];
    }
  }

  lemma {:induction false} StrippedRight(s: string)
    ensures Identifiers.StripRight(s) != "" <==> HasText(s)
  {
    if s != "" && Identifiers.IsSpace(s[|s| - 1]) {
      StrippedRight(s[..|s| - 1]);
      HasTextFront(s);
    } else if s != "" {
      assert !Identifiers.IsSpace(s[|s| - 1]);
    }
  }

  lemma {:induction false} StrippedLeft(s: string)
    ensures HasText(s) <==> HasText(Identifiers.StripLeft(s))
  {
    if s != "" && Identifiers.IsSpace(s[0]) {
      StrippedLeft(s[1..]);
      HasTextTail(s);
    }
  }

  /** A text counts as given exactly when stripping leaves something of it. */
  lemma GivenExactlyWhenStripped(s: Option<string>)
    ensures NonBlank(s) <==> s.Some? && Identifiers.Strip(s.value) != ""
  {
    if s.Some? {
      StrippedLeft(s.value);
      StrippedRight(Identifiers.StripLeft(s.value));
    }
  }

  /******* Transitions *******/

  /** From which statuses an action may be taken. */
  predicate MayLeave(status: Status, action: Action) {
    match action
    case Triage => status == Detected
    case Prepare => status == Triaged
    case RequestApproval => status == Prepared
    case Approve => status == AwaitingApproval
    case Reject => status == AwaitingApproval
    case Start => status in {Prepared, Approved, Executed}
    case MarkExecuted => status == InProgress
    case Verify => status == Executed
    case RecordOutcome => status == Verified
    case Dismiss => status in {Detected, Triaged, Prepared, AwaitingApproval, Approved, InProgress}
    case Close => status in {Verified, OutcomeRecorded}
    case Reopen => status in {Dismissed, Closed}
  }

  predicate Present(s: Option<string>) { s.Some? && |s.value| > 0 }

  predicate Given(s: Option<string>) { s.Some? && Identifiers.Strip(s.value) != "" }

  /** The role may not take the action. */
  predicate Denied(p: Payload, role: Role) { p.action in {Approve, Reject, Reopen} && role in {Viewer, Analyst} }

  /** A text is missing, or external work without a record is to be verified. */
  predicate Lacking(item: Item, p: Payload) {
    || (p.action in {Dismiss, Reject} && !Given(p.reason))
    || (p.action == RecordOutcome && !Given(p.outcome))
    || (p.action == Verify && Present(item.externalSystem) && !Present(item.externalRecordId))
  }

  /** Which requests are accepted, and with which code the others are refused. */
  lemma TransitionReply(item: Item, p: Payload, role: Role, actor: string, now: int)
    ensures var reply := Handle(item, Transition(p, role), actor, now).0;
            var late := p.action == RecordOutcome && p.followUp == Unparseable;
            && (reply == Error(403) <==> Denied(p, role))
            && (reply == Error(409) <==> !Denied(p, role) && !Lacking(item, p) && !MayLeave(item.status, p.action))
            && (reply == Ok <==> !Denied(p, role) && !Lacking(item, p) && MayLeave(item.status, p.action) && !late)
            && reply in {Ok, Error(403), Error(409), Error(422)}
  {
    CheckLaw(item, p, role);
  }

  lemma CheckLaw(item: Item, p: Payload, role: Role)
    ensures var verdict := Check(item, p, role);
            && (verdict == Forbidden <==> Denied(p, role))
            && (verdict == NoTransition <==> !Denied(p, role) && !Lacking(item, p) && !MayLeave(item.status, p.action))
            && (verdict == Applied <==> !Denied(p, role) && !Lacking(item, p) && MayLeave(item.status, p.action)
                                        && !(p.action == RecordOutcome && p.followUp == Unparseable))
  {
    GivenExactlyWhenStripped(p.reason);
    GivenExactlyWhenStripped(p.outcome);
    TableLaw(item.status, p.action);
  }

  lemma TableLaw(status: Status, action: Action)
    ensures NextStatus(status, action).Some? <==> MayLeave(status, action)
  {
  }

  /** Where an accepted action leads: the action alone decides. */
  lemma TransitionTarget(item: Item, p: Payload, role: Role, actor: string, now: int)
    requires Handle(item, Transition(p, role), actor, now).0 == Ok
    ensures var status := Handle(item, Transition(p, role), actor, now).1.status;
            && (p.action in {Triage, Reopen} ==> status == Triaged)
            && (p.action in {Prepare, Reject} ==> status == Prepared)
            && (p.action == RequestApproval ==> status == AwaitingApproval)
            && (p.action == Approve ==> status == Approved)
            && (p.action == Start ==> status == InProgress)
            && (p.action == MarkExecuted ==> status == Executed)
            && (p.action == Verify ==> status == Verified)
            && (p.action == RecordOutcome ==> status == OutcomeRecorded)
            && (p.action == Close ==> status == Closed)
            && (p.action == Dismiss ==> status == Dismissed)
  {
    TableTarget(item.status, p.action);
  }

  lemma TableTarget(status: Status, action: Action)
    requires NextStatus(status, action).Some?
    ensures NextStatus(status, action).value
         == match action
            case Triage => Triaged
            case Prepare => Prepared
            case RequestApproval => AwaitingApproval
            case Approve => Approved
            case Reject => Prepared
            case Start => InProgress
            case MarkExecuted => Executed
            case Verify => Verified
            case RecordOutcome => OutcomeRecorded
            case Dismiss => Dismissed
            case Close => Closed
            case Reopen => Triaged
  {
  }

  /** What else it changes. */
  lemma TransitionFields(item: Item, p: Payload, role: Role, actor: string, now: int)
    requires Handle(item, Transition(p, role), actor, now).0 == Ok
    ensures var item', a := Handle(item, Transition(p, role), actor, now).1, p.action;
            && item'.approval == (if a == RequestApproval then Pending else if a == Approve then Granted
                                  else if a == Reject then Refused else if a == Reopen then NotRequired
                                      else item.approval)
            && item'.execution == (if a == Start then Started else if a == MarkExecuted then Done
                                   else if a == Verify then Confirmed else if a == Reopen then NotStarted
                                       else item.execution)
            && item'.outcome == (if a == RecordOutcome then p.outcome else if a == Dismiss then p.reason
                                 else item.outcome)
            && item'.dismissalReason == (if a == Dismiss then p.reason else if a == Reopen then None
                                         else item.dismissalReason)
            && item'.rejectionReason == (if a == Reject then p.reason else if a == Reopen then None
                                         else item.rejectionReason)
            && item'.executionError == (if a == Reopen then None else item.executionError)
            && SameExternals(item, item') && item'.idempotencyKey == item.idempotencyKey
                && item'.details == item.details
  {
  }

  predicate SameExternals(item: Item, item': Item) {
    item'.externalSystem == item.externalSystem && item'.externalRecordId == item.externalRecordId
  }

  /******* What is written to the history *******/

  /** The last entry tells the change from one item to another, by whom and when. */
  predicate Tells(e: Entry, before: Item, after: Item, actor: string, now: int) {
    && e.timestamp == Some(now) && e.actor == actor
    && e.fromState == Some(before.status) && e.toState == Some(after.status)
    && e.before.Some? && PicturedBy(before, e.before.value)
    && e.after.Some? && PicturedBy(after, e.after.value)
  }

  predicate PicturedBy(item: Item, s: Snapshot) {
    && s.status == item.status && s.approval == item.approval && s.execution == item.execution
    && s.externalSystem == item.externalSystem && s.externalRecordId == item.externalRecordId
    && s.idempotencyKey == item.idempotencyKey && s.executionError == item.executionError
  }

  predicate AddsOne(before: Item, after: Item, actor: string, now: int) {
    && |after.history| == |before.history| + 1 && after.history[..|before.history|] == before.history
    && Tells(after.history[|before.history|], before, after, actor, now)
  }

  /** Every accepted request but an external write and a purge adds one entry that tells it. */
  lemma AcceptedIsTold(item: Item, r: Request, actor: string, now: int)
    requires !r.ExecuteTask? && !r.PurgeAudit? && Handle(item, r, actor, now).0 == Ok
    ensures var item' := Handle(item, r, actor, now).1;
            AddsOne(item, item', actor, now)
                || (r.ReviewDecided? && item.status in {Dismissed, Closed} && item' == item)
  {
    var item' := Handle(item, r, actor, now).1;
    assert item'.history == item.history || item'.history[..|item.history|] == item.history;
  }

  /** The entry's name tells decisions, external work and outcomes apart from plain moves. */
  lemma EntryNames(item: Item, p: Payload, role: Role, actor: string, now: int)
    requires Handle(item, Transition(p, role), actor, now).0 == Ok
    ensures var history, a := Handle(item, Transition(p, role), actor, now).1.history, p.action;
            history != [] &&
            var name := history[|history| - 1].action;
            && (a in {Triage, Prepare, Close} <==> name == "status_transition")
            && (a == RequestApproval <==> name == "approval_requested")
            && (a == Approve <==> name == "approved") && (a == Reject <==> name == "rejected")
            && (a == Start <==> name == "execution_started") && (a == MarkExecuted <==> name == "execution_succeeded")
            && (a == Verify <==> name == "verification_succeeded")
            && (a == RecordOutcome <==> name == "outcome_recorded")
            && (a == Dismiss <==> name == "dismissed") && (a == Reopen <==> name == "reopened")
  {
  }

  /******* The other endpoints *******/

  /** Dismissing through its own endpoint asks for the role as well, and for an admin on an approved item. */
  lemma DismissLaw(item: Item, reason: string, role: Role, actor: string, now: int)
    ensures var (reply, item') := Handle(item, DismissItem(reason, role), actor, now);
            && (reply == Ok <==> MayLeave(item.status, Dismiss) && role != Viewer && (item.status == Approved ==>
                role == Admin))
            && (reply != Ok ==> reply == Error(409) && item' == item)
            && (reply == Ok ==>
                  && item'.status == Dismissed && item'.outcome == Some(reason) && item'.dismissalReason == Some(reason)
                  && item'.approval == item.approval && item'.execution == item.execution && SameExternals(item, item'))
  {
  }

  lemma PlainUpdates(item: Item, details: map<string, string>, datesParse: bool, body: string, actor: string, now: int)
    ensures var (reply, item') := Handle(item, Patch(details, datesParse), actor, now);
            && (reply == if datesParse then Ok else Error(422))
            && item'.(history := []) == item.(history := [], details := if datesParse then item.details + details
                                              else item.details)
    ensures var (reply, item') := Handle(item, AddNote(body), actor, now);
            reply == Ok && item'.(history := []) == item.(history := [])
  {
  }

  /** A decided review closes its item unless it is over already. */
  lemma ReviewClosesItem(item: Item, action: string, actor: string, now: int)
    ensures var (reply, item') := Handle(item, ReviewDecided(action), actor, now);
            && reply == Ok
            && (item.status in {Dismissed, Closed} ==> item' == item)
            && (item.status !in {Dismissed, Closed} ==>
                  && item'.status == Closed && item'.execution == Confirmed
                  && item'.outcome == Some("Relationship review " + action + ".") && item'.approval == item.approval)
  {
  }

  /** Nothing is offered to a viewer, and nothing to anyone else that the status does not allow. */
  lemma OfferedLaw(item: Item, role: Role, action: Action)
    ensures Allowed(item, role, action) <==>
            && role != Viewer && MayLeave(item.status, action)
            && (action in {Approve, Reject, Reopen} ==> role in {Cro, Admin})
            && (action == Dismiss && item.status == Approved ==> role == Admin)
            && !(action == Verify && Present(item.externalSystem) && !Present(item.externalRecordId))
  {
  }

  /** A purge looks at each entry by itself: it keeps the recent ones and those without a readable time. */
  lemma PurgeKeepsEntryExactlyWhen(history: seq<Entry>, e: Entry, cutoff: int)
    ensures var kept := e.timestamp.None? || e.timestamp.value >= cutoff;
            Kept(history + [e], cutoff) == Kept(history, cutoff) + if kept then [e] else []
  {
    assert (history + [e])[..|history|] == history;
  }

  /** What is stored for a new item: what was asked for, nothing external, and one entry that tells its creation. */
  lemma CreatedLaw(status: Status, approval: Approval, execution: Execution, outcome: Option<string>,
                   details: map<string, string>, actor: string, now: int)
    ensures var item := Created(status, approval, execution, outcome, details, actor, now);
            && item.status == status && item.approval == approval && item.execution == execution
            && item.outcome == outcome && item.details == details
            && item.externalSystem == None && item.externalRecordId == None && item.idempotencyKey == None
            && item.executionError == None && item.dismissalReason == None && item.rejectionReason == None
            && |item.history| == 1
            && var e := item.history[0];
            && e.action == "create" && e.actor == actor && e.timestamp == Some(now)
            && e.fromState == None && e.toState == Some(status) && e.before == None
            && e.after.Some? && PicturedBy(item, e.after.value)
  {
  }

  /******* HubSpot tasks *******/

  /** The answers to a task request, in the order of the checks. */
  lemma TaskReply(item: Item, t: TaskRequest, actor: string, now: int)
    ensures var reply := Handle(item, ExecuteTask(t), actor, now).0;
            var recorded := item.externalSystem == Some("hubspot") && Present(item.externalRecordId);
            var open := item.approval == Granted && item.status in {Approved, InProgress};
            if !t.confirmed then reply == Error(422)
            else if !t.configured then reply == Error(501)
            else if t.blocked || t.role in {Viewer, Analyst} then reply == Error(403)
            else if recorded then reply == if item.idempotencyKey
                == Some(t.key) then Duplicate(item.externalRecordId.value) else Error(409)
            else if !open then reply == Error(409)
            else if t.result.ProcessDied? then reply == NoReply
            else if t.result.TaskVerified? && t.result.id != "" then reply == Ok
            else reply == Error(502)
  {
  }

  /**
   What an accepted task request leaves: the created and verified task, the failure, or the start that was
   committed.
   */
  lemma TaskLeaves(item: Item, t: TaskRequest, actor: string, now: int)
    requires Handle(item, ExecuteTask(t), actor, now).0 in {Ok, Error(502), NoReply}
    ensures var (reply, item') := Handle(item, ExecuteTask(t), actor, now);
            && item'.idempotencyKey == Some(t.key) && item'.approval == item.approval && item'.details == item.details
            && (reply == Ok ==>
                  && item'.status == Verified && item'.execution == Confirmed && item'.executionError == None
                  && item'.externalSystem == Some("hubspot") && item'.externalRecordId == Some(t.result.id)
                  && item'.outcome == Some("Created and verified HubSpot task " + t.result.id + "."))
            && (reply != Ok ==>
                  item'.status == InProgress && SameExternals(item, item') && item'.outcome == item.outcome)
            && (reply == Error(502) ==>
                  && item'.execution == Failed
                  && item'.executionError == Some(if t.result.TaskError? then t.result.message
                                                  else "HubSpot returned no task id"))
            && (reply == NoReply ==> item'.execution == Started && item'.executionError == None)
  {
  }

  /** The start and the end of a task are told one after the other. */
  lemma TaskIsTold(item: Item, t: TaskRequest, actor: string, now: int)
    requires Handle(item, ExecuteTask(t), actor, now).0 in {Ok, Error(502), NoReply}
    ensures var (reply, item') := Handle(item, ExecuteTask(t), actor, now);
            var n := |item.history|;
            && item.history <= item'.history && |item'.history| == n + (if reply == NoReply then 1 else 2)
            && item'.history[n].action == "hubspot_task_execute_started"
            && item'.history[n].fromState == Some(item.status) && item'.history[n].toState == Some(InProgress)
            && (reply != NoReply ==>
                  && item'.history[n + 1].fromState == Some(InProgress)
                      && item'.history[n + 1].toState == Some(item'.status)
                  && item'.history[n + 1].action
                     == if reply == Ok then "hubspot_task_execute_verified" else "hubspot_task_execute_failed")
  {
    var started := TaskStarted(item, t, actor, now);
    assert started.history[..|item.history|] == item.history;
  }

  /******* How a status is entered *******/

  /** Why one request moved the item to the status it has now. */
  predicate Entered(item: Item, r: Request, reply: Reply, status: Status) {
    match r
    case Transition(p, role) =>
      && reply == Ok && MayLeave(item.status, p.action)
      && (status == Verified ==> p.action == Verify && item.status == Executed)
      && (status == Approved ==> p.action == Approve && role in {Cro, Admin})
      && (status == Executed ==> p.action == MarkExecuted && item.status == InProgress)
      && (status == OutcomeRecorded ==> p.action == RecordOutcome && Given(p.outcome))
      && (status == InProgress ==> p.action == Start)
      && (status == Closed ==> p.action == Close)
      && (status == Dismissed ==> p.action == Dismiss && Given(p.reason))
      && status != Detected
    case DismissItem(_, role) => reply == Ok && status == Dismissed && role != Viewer
    case ExecuteTask(t) =>
      && t.role in {Cro, Admin} && t.confirmed && item.approval == Granted
      && (if status == Verified then reply == Ok && t.result.TaskVerified? && t.result.id != ""
          else status == InProgress)
    case ReviewDecided(_) => status == Closed
    case _ => false
  }

  lemma StatusMovesOnlySo(item: Item, r: Request, actor: string, now: int)
    ensures var (reply, item') := Handle(item, r, actor, now);
            item'.status != item.status ==> Entered(item, r, reply, item'.status)
  {
    if r.Transition? && Handle(item, r, actor, now).0 == Ok {
      TransitionReply(item, r.payload, r.role, actor, now);
      TransitionTarget(item, r.payload, r.role, actor, now);
    }
  }

  /**
   Over every run: an item becomes verified only by an accepted verification of executed work, external work having its
   record, or by a HubSpot task that was created and read back; and so for every other status.
   */
  lemma EveryStatusIsEarned(items: seq<Item>, replies: seq<Reply>, calls: seq<Call>, n: nat)
    requires IsRun(items, replies, calls) && n < |calls| && items[n + 1].status != items[n].status
    ensures Entered(items[n], calls[n].request, replies[n], items[n + 1].status)
    ensures items[n + 1].status == Verified ==>
              || (calls[n].request.ExecuteTask? && replies[n] == Ok && HasTask(items[n + 1]))
              || (calls[n].request.Transition? && calls[n].request.payload.action == Verify
                  && items[n].status == Executed
                  && (!Present(items[n].externalSystem) || Present(items[n].externalRecordId)))
  {
    var call := calls[n];
    StatusMovesOnlySo(items[n], call.request, call.actor, call.now);
    if call.request.Transition? {
      TransitionReply(items[n], call.request.payload, call.request.role, call.actor, call.now);
    } else if call.request.ExecuteTask? && replies[n] == Ok {
      TaskLeaves(items[n], call.request.task, call.actor, call.now);
    }
  }
}
