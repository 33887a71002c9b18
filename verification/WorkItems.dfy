/**
 One work item and the endpoints that change it (btx_platform/api.py).

 `Handle` is what an endpoint answers and what it leaves stored; the classes of WorkItemApi are the code,
 a session row whose fields are assigned one by one and a store that only sees committed rows.
 */
module WorkItems {
  import opened Common
  import Identifiers

  datatype Status =
    | Detected | Triaged | Prepared | AwaitingApproval | Approved | InProgress | Executed | Verified
    | OutcomeRecorded | Dismissed | Closed
  datatype Approval = NotRequired | Pending | Granted | Refused
  datatype Execution = NotStarted | Started | Done | Confirmed | Failed
  datatype Role = Viewer | Analyst | Cro | Admin
  datatype Action =
    | Triage | Prepare | RequestApproval | Approve | Reject | Start | MarkExecuted | Verify | RecordOutcome
    | Dismiss | Close | Reopen

  datatype FollowUp = Absent | Unparseable | At(time: int)
  datatype Payload = Payload(action: Action, reason: Option<string>, outcome: Option<string>, followUp: FollowUp)

  /** What an audit entry keeps of the item; the source also nests the earlier history here. */
  datatype Snapshot = Snapshot(status: Status, approval: Approval, execution: Execution, externalSystem: Option<string>,
                               externalRecordId: Option<string>, idempotencyKey: Option<string>,
                               executionError: Option<string>)
  datatype Entry = Entry(timestamp: Option<int>, actor: string, action: string, fromState: Option<Status>,
                         toState: Option<Status>,
                         before: Option<Snapshot>, after: Option<Snapshot>)

  datatype Item = Item(status: Status, approval: Approval, execution: Execution, externalSystem: Option<string>,
                       externalRecordId: Option<string>, idempotencyKey: Option<string>, executionError: Option<string>,
                       outcome: Option<string>, dismissalReason: Option<string>, rejectionReason: Option<string>,
                       details: map<string, string>, history: seq<Entry>)

  function SnapshotOf(item: Item): Snapshot {
    Snapshot(item.status, item.approval, item.execution, item.externalSystem, item.externalRecordId,
             item.idempotencyKey, item.executionError)
  }

  /** The transition table. */
  function NextStatus(status: Status, action: Action): Option<Status> {
    match (status, action)
    case (Detected, Triage) => Some(Triaged)
    case (Triaged, Prepare) => Some(Prepared)
    case (Prepared, RequestApproval) => Some(AwaitingApproval)
    case (Prepared, Start) => Some(InProgress)
    case (AwaitingApproval, Approve) => Some(Approved)
    case (AwaitingApproval, Reject) => Some(Prepared)
    case (Approved, Start) => Some(InProgress)
    case (InProgress, MarkExecuted) => Some(Executed)
    case (Executed, Verify) => Some(Verified)
    case (Executed, Start) => Some(InProgress)
    case (Verified, RecordOutcome) => Some(OutcomeRecorded)
    case (Verified, Close) => Some(Closed)
    case (OutcomeRecorded, Close) => Some(Closed)
    case (Dismissed, Reopen) => Some(Triaged)
    case (Closed, Reopen) => Some(Triaged)
    case (_, Dismiss) => if status in {Detected, Triaged, Prepared, AwaitingApproval, Approved, InProgress} then
        Some(Dismissed) else None
    case _ => None
  }

  predicate MayDecide(role: Role) { role == Cro || role == Admin }

  /** The actions a response offers. */
  predicate Allowed(item: Item, role: Role, action: Action) {
    && NextStatus(item.status, action).Some?
    && (action in {Approve, Reject, Reopen} ==> MayDecide(role))
    && !(role != Admin && item.status == Approved && action == Dismiss)
    && role != Viewer
    && !(Truthy(item.externalSystem) && item.status == Executed && !Truthy(item.externalRecordId) && action == Verify)
  }

  predicate Truthy(s: Option<string>) { s.Some? && s.value != "" }

  /** The text is present and more than white space. */
  predicate NonBlank(s: Option<string>) {
    s.Some? && exists i :: 0 <= i < |s.value| && !Identifiers.IsSpace(s.value[i])
  }

  /******* Transitions *******/

  datatype Verdict = Applied | Forbidden | NoTransition | Invalid

  /** The checks in the order the code makes them; the follow-up date is only parsed once the row has been changed. */
  function Check(item: Item, p: Payload, role: Role): Verdict {
    if p.action in {Approve, Reject, Reopen} && !MayDecide(role) then Forbidden
    else if p.action == Dismiss && !NonBlank(p.reason) then Invalid
    else if p.action == Reject && !NonBlank(p.reason) then Invalid
    else if p.action == RecordOutcome && !NonBlank(p.outcome) then Invalid
    else if p.action == Verify && Truthy(item.externalSystem) && !Truthy(item.externalRecordId) then Invalid
    else if NextStatus(item.status, p.action).None? then NoTransition
    else if p.action == RecordOutcome && p.followUp == Unparseable then Invalid
    else Applied
  }

  function Apply(item: Item, p: Payload): Item
    requires NextStatus(item.status, p.action).Some?
  {
    Effects(item.(status := NextStatus(item.status, p.action).value), p)
  }

  function Effects(moved: Item, p: Payload): Item {
    match p.action
    case RequestApproval => moved.(approval := Pending)
    case Approve => moved.(approval := Granted)
    case Reject => moved.(approval := Refused, rejectionReason := p.reason)
    case Start => moved.(execution := Started)
    case MarkExecuted => moved.(execution := Done)
    case Verify => moved.(execution := Confirmed)
    case RecordOutcome => moved.(outcome := p.outcome)
    case Dismiss => moved.(dismissalReason := p.reason, outcome := p.reason)
    case Reopen => moved.(approval := NotRequired, execution := NotStarted, executionError := None,
                          dismissalReason := None, rejectionReason := None)
    case _ => moved
  }

  function Audited(before: Item, after: Item, action: string, actor: string, now: int): Item {
    after.(history := before.history + [Entry(Some(now), actor, action, Some(before.status), Some(after.status),
                                              Some(SnapshotOf(before)), Some(SnapshotOf(after)))])
  }

  function EventType(action: Action): string {
    match action
    case RequestApproval => "approval_requested"
    case Approve => "approved"
    case Reject => "rejected"
    case Start => "execution_started"
    case MarkExecuted => "execution_succeeded"
    case Verify => "verification_succeeded"
    case RecordOutcome => "outcome_recorded"
    case Dismiss => "dismissed"
    case Reopen => "reopened"
    case _ => "status_transition"
  }

  /******* HubSpot execution *******/

  /** What the HubSpot calls did: a created and re-read task, an error they report, or no return at all. */
  datatype TaskResult = TaskVerified(id: string) | TaskError(message: string) | ProcessDied
  datatype TaskRequest = TaskRequest(confirmed: bool, configured: bool, blocked: bool, role: Role, key: string,
                                     result: TaskResult)

  /** The refusals that come before the item is looked at. */
  function TaskScreen(t: TaskRequest): Option<int> {
    if !t.confirmed then Some(422)
    else if !t.configured then Some(501)
    else if t.blocked then Some(403)
    else if !MayDecide(t.role) then Some(403)
    else None
  }

  predicate HasTask(item: Item) {
    item.externalSystem == Some("hubspot") && Truthy(item.externalRecordId)
  }

  predicate ApprovalGate(item: Item) {
    item.approval == Granted && item.status in {Approved, InProgress}
  }

  function TaskStarted(item: Item, t: TaskRequest, actor: string, now: int): Item {
    Audited(item, item.(approval := Granted, status := InProgress, execution := Started,
                        idempotencyKey := Some(t.key), executionError := None),
            "hubspot_task_execute_started", actor, now)
  }

  function TaskFinished(item: Item, result: TaskResult, actor: string, now: int): Item {
    match result
    case TaskVerified(id) =>
      if id == "" then TaskFailed(item, "HubSpot returned no task id", actor, now)
      else Audited(item, item.(status := Verified, execution := Confirmed,
                               outcome := Some("Created and verified HubSpot task " + id + "."),
                               externalSystem := Some("hubspot"), externalRecordId := Some(id), executionError := None),
                   "hubspot_task_execute_verified", actor, now)
    case TaskError(message) => TaskFailed(item, message, actor, now)
    case ProcessDied => item
  }

  function TaskFailed(item: Item, message: string, actor: string, now: int): Item {
    Audited(item, item.(execution := Failed, executionError := Some(message)), "hubspot_task_execute_failed", actor,
            now)
  }

  /******* Endpoints *******/

  datatype Request =
    | Transition(payload: Payload, role: Role)
    | DismissItem(reason: string, role: Role)
    | Patch(details: map<string, string>, datesParse: bool)
    | AddNote(body: string)
    | ExecuteTask(task: TaskRequest)
    | ReviewDecided(action: string)
    | PurgeAudit(cutoff: int)

  datatype Reply = Ok | Duplicate(record: string) | Error(code: int) | NoReply

  /** The entries a retention purge keeps: not older than the cutoff, or without a readable time. */
  function Kept(history: seq<Entry>, cutoff: int): seq<Entry> {
    if history == [] then []
    else Kept(history[..|history| - 1], cutoff)
         + (var last := history[|history| - 1]; if last.timestamp.None? || last.timestamp.value >= cutoff then [last]
            else [])
  }

  function Handle(item: Item, r: Request, actor: string, now: int): (Reply, Item) {
    match r
    case Transition(p, role) => (
      match Check(item, p, role)
      case Applied => (Ok, Audited(item, Apply(item, p), EventType(p.action), actor, now))
      case Forbidden => (Error(403), item)
      case NoTransition => (Error(409), item)
      case Invalid => (Error(422), item))
    case DismissItem(reason, role) =>
      if !Allowed(item, role, Dismiss) then (Error(409), item)
      else (Ok, Audited(item, item.(status := Dismissed, outcome := Some(reason), dismissalReason := Some(reason)),
                        "dismissed", actor, now))
    case Patch(details, datesParse) =>
      if !datesParse then (Error(422), item)
      else (Ok, Audited(item, item.(details := item.details + details), "updated", actor, now))
    case AddNote(_) => (Ok, Audited(item, item, "note_added", actor, now))
    case ExecuteTask(t) => HandleTask(item, t, actor, now)
    case ReviewDecided(action) =>
      if item.status in {Dismissed, Closed} then (Ok, item)
      else (Ok, Audited(item,
                        item.(status := Closed, execution := Confirmed, outcome := Some("Relationship review "
          + action + ".")),
                        "relationship_" + action, actor, now))
    case PurgeAudit(cutoff) => (Ok, item.(history := Kept(item.history, cutoff)))
  }

  function HandleTask(item: Item, t: TaskRequest, actor: string, now: int): (Reply, Item) {
    if TaskScreen(t).Some? then (Error(TaskScreen(t).value), item)
    else if HasTask(item) then
      if item.idempotencyKey == Some(t.key) then (Duplicate(item.externalRecordId.value), item) else (Error(409), item)
    else if !ApprovalGate(item) then (Error(409), item)
    else
      var finished := TaskFinished(TaskStarted(item, t, actor, now), t.result, actor, now);
      (match t.result
       case TaskVerified(id) => if id == "" then Error(502) else Ok
       case TaskError(_) => Error(502)
       case ProcessDied => NoReply,
       finished)
  }

  /** What POST /work-items stores. */
  function Created(status: Status, approval: Approval, execution: Execution, outcome: Option<string>,
                   details: map<string, string>,
                   actor: string, now: int): Item
  {
    var blank := Item(status, approval, execution, None, None, None, None, outcome, None, None, details, []);
    blank.(history := [Entry(Some(now), actor, "create", None, Some(status), None, Some(SnapshotOf(blank)))])
  }
}
