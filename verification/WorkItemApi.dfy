/**
 The work-item endpoints as code (btx_platform/api.py, retention.py): a session row is changed field by field
 and reaches the store only when it is committed.
 */
module WorkItemApi {
  import opened Common
  import opened WorkItems

  /** The session's copy of one row. */
  class WorkItemRow {
    var status: Status
    var approval: Approval
    var execution: Execution
    var externalSystem: Option<string>
    var externalRecordId: Option<string>
    var idempotencyKey: Option<string>
    var executionError: Option<string>
    var outcome: Option<string>
    var dismissalReason: Option<string>
    var rejectionReason: Option<string>
    var details: map<string, string>
    var history: seq<Entry>

    constructor Load(item: Item)
      ensures Value() == item
    {
      status, approval, execution := item.status, item.approval, item.execution;
      externalSystem, externalRecordId := item.externalSystem, item.externalRecordId;
      idempotencyKey, executionError := item.idempotencyKey, item.executionError;
      outcome, dismissalReason, rejectionReason := item.outcome, item.dismissalReason, item.rejectionReason;
      details, history := item.details, item.history;
    }

    function Value(): Item
      reads this
    {
      Item(status, approval, execution, externalSystem, externalRecordId, idempotencyKey, executionError,
           outcome, dismissalReason, rejectionReason, details, history)
    }

    /** A refusal for a bad follow-up date comes after the row has been changed; the caller must not commit it. */
    method ApplyTransition(p: Payload, role: Role) returns (verdict: Verdict)
      modifies this
      ensures verdict == Check(old(Value()), p, role)
      ensures verdict == Applied ==> Value() == Apply(old(Value()), p)
      ensures verdict != Applied && !(p.action == RecordOutcome && p.followUp == Unparseable) ==>
          Value() == old(Value())
      ensures history == old(history)
    {
      if p.action in {Approve, Reject, Reopen} && !MayDecide(role) {
        return Forbidden;
      }
      if p.action == Action.Dismiss && !NonBlank(p.reason) {
        return Invalid;
      }
      if p.action == Reject && !NonBlank(p.reason) {
        return Invalid;
      }
      if p.action == RecordOutcome && !NonBlank(p.outcome) {
        return Invalid;
      }
      if p.action == Verify && Truthy(externalSystem) && !Truthy(externalRecordId) {
        return Invalid;
      }
      var next := NextStatus(status, p.action);
      if next.None? {
        return NoTransition;
      }
      status := next.value;
      var parsed := ApplyEffects(p);
      return if parsed then Applied else Invalid;
    }

    /** What an action changes besides the status; a follow-up date that cannot be parsed is only found here. */
    method ApplyEffects(p: Payload) returns (parsed: bool)
      modifies this`approval, this`execution, this`executionError
      modifies this`outcome, this`dismissalReason, this`rejectionReason
      ensures parsed == !(p.action == RecordOutcome && p.followUp == Unparseable)
      ensures Value() == Effects(old(Value()), p)
    {
      match p.action {
        case RequestApproval => approval := Pending;
        case Approve => approval := Granted;
        case Reject =>
          approval := Refused;
          rejectionReason := p.reason;
        case Start => execution := Started;
        case MarkExecuted => execution := Execution.Done;
        case Verify => execution := Confirmed;
        case RecordOutcome =>
          outcome := p.outcome;
          if p.followUp == Unparseable {
            return false;
          }
        case Dismiss =>
          dismissalReason := p.reason;
          outcome := p.reason;
        case Reopen =>
          approval := NotRequired;
          execution := NotStarted;
          executionError := None;
          dismissalReason := None;
          rejectionReason := None;
        case _ =>
      }
      return true;
    }

    method SetTask(taskId: string, actor: string, now: int)
      requires taskId != ""
      modifies this
      ensures Value() == TaskFinished(old(Value()), TaskVerified(taskId), actor, now)
    {
      var started := Value();
      status := Verified;
      execution := Confirmed;
      outcome := Some("Created and verified HubSpot task " + taskId + ".");
      externalSystem := Some("hubspot");
      externalRecordId := Some(taskId);
      executionError := None;
      AppendAudit("hubspot_task_execute_verified", actor, started, now);
    }

    method SetTaskFailure(message: string, actor: string, now: int)
      modifies this
      ensures Value() == TaskFailed(old(Value()), message, actor, now)
    {
      var started := Value();
      execution := Execution.Failed;
      executionError := Some(message);
      AppendAudit("hubspot_task_execute_failed", actor, started, now);
    }

    method AppendAudit(action: string, actor: string, before: Item, now: int)
      requires before.history == history
      modifies this`history
      ensures Value() == Audited(before, old(Value()), action, actor, now)
    {
      history := history + [Entry(Some(now), actor, action, Some(before.status), Some(status),
                                  Some(SnapshotOf(before)), Some(SnapshotOf(Value())))];
    }
  }

  /** The items among `ids` that lose entries to a purge. */
  function Shortened(items: map<string, Item>, ids: set<string>, cutoff: int): set<string>
    requires ids <= items.Keys
  {
    set id | id in ids && |Kept(items[id].history, cutoff)| < |items[id].history|
  }

  /** The rows while a purge still has some to do. */
  ghost function Swept(items: map<string, Item>, todo: set<string>, cutoff: int, dryRun: bool): map<string, Item> {
    map id | id in items :: if id in todo then items[id] else Purged(items[id], cutoff, dryRun)
  }

  lemma SweptNext(items: map<string, Item>, todo: set<string>, id: string, cutoff: int, dryRun: bool)
    requires todo <= items.Keys && id in todo
    ensures Swept(items, todo, cutoff, dryRun)[id := Purged(items[id], cutoff, dryRun)]
        == Swept(items, todo - {id}, cutoff, dryRun)
    ensures |Shortened(items, items.Keys - (todo - {id}), cutoff)|
            == |Shortened(items, items.Keys - todo, cutoff)|
                + (if |Kept(items[id].history, cutoff)| < |items[id].history| then 1 else 0)
  {
    var before, after := Shortened(items, items.Keys - todo, cutoff),
        Shortened(items, items.Keys - (todo - {id}), cutoff);
    if |Kept(items[id].history, cutoff)| < |items[id].history| {
      assert after == before + {id};
    } else {
      assert after == before;
    }
  }

  function Purged(item: Item, cutoff: int, dryRun: bool): Item {
    if dryRun then item else Handle(item, PurgeAudit(cutoff), "", 0).1
  }

  /** What the requests share: only committed rows are in `stored`. */
  class Api {
    var stored: map<string, Item>

    constructor ()
      ensures stored == map[]
    {
      stored := map[];
    }

    /** The answer and the committed rows after a request on one item. */
    ghost predicate Answered(before: map<string, Item>, id: string, r: Request, actor: string, now: int, reply: Reply)
      reads this
    {
      if id !in before then reply == Error(404) && stored == before
      else reply == Handle(before[id], r, actor, now).0 && stored == before[id := Handle(before[id], r, actor, now).1]
    }

    method CreateWorkItem(id: string, status: Status, approval: Approval, execution: Execution, outcome: Option<string>,
                          details: map<string, string>, actor: string, now: int)
      requires id !in stored
      modifies this
      ensures stored == old(stored)[id := Created(status, approval, execution, outcome, details, actor, now)]
    {
      var row := new WorkItemRow.Load(Item(status, approval, execution, None, None, None, None, outcome, None, None,
                                           details, []));
      var entry := Entry(Some(now), actor, "create", None, Some(row.status), None, Some(SnapshotOf(row.Value())));
      row.history := row.history + [entry];
      assert row.history == [entry];
      stored := stored[id := row.Value()];
    }

    method TransitionWorkItem(id: string, p: Payload, role: Role, actor: string, now: int) returns (reply: Reply)
      modifies this
      ensures Answered(old(stored), id, Transition(p, role), actor, now, reply)
    {
      if id !in stored {
        return Error(404);
      }
      var before := stored[id];
      var row := new WorkItemRow.Load(before);
      var verdict := row.ApplyTransition(p, role);
      assert stored[id := before] == stored;
      match verdict {
        case Forbidden => return Error(403);
        case NoTransition => return Error(409);
        case Invalid => return Error(422);
        case Applied =>
          row.AppendAudit(EventType(p.action), actor, before, now);
          stored := stored[id := row.Value()];
          return Ok;
      }
    }

    method PatchWorkItem(id: string, details: map<string, string>, datesParse: bool, actor: string, now: int)
        returns (reply: Reply)
      modifies this
      ensures Answered(old(stored), id, Patch(details, datesParse), actor, now, reply)
    {
      if id !in stored {
        return Error(404);
      }
      var before := stored[id];
      var row := new WorkItemRow.Load(before);
      if !datesParse {
        return Error(422);
      }
      row.details := row.details + details;
      row.AppendAudit("updated", actor, before, now);
      stored := stored[id := row.Value()];
      return Ok;
    }

    method AddWorkItemNote(id: string, body: string, actor: string, now: int) returns (reply: Reply)
      modifies this
      ensures Answered(old(stored), id, AddNote(body), actor, now, reply)
    {
      if id !in stored {
        return Error(404);
      }
      var row := new WorkItemRow.Load(stored[id]);
      row.AppendAudit("note_added", actor, stored[id], now);
      stored := stored[id := row.Value()];
      return Ok;
    }

    method DismissWorkItem(id: string, reason: string, role: Role, actor: string, now: int) returns (reply: Reply)
      modifies this
      ensures Answered(old(stored), id, DismissItem(reason, role), actor, now, reply)
    {
      if id !in stored {
        return Error(404);
      }
      var before := stored[id];
      if !Allowed(before, role, Action.Dismiss) {
        return Error(409);
      }
      var row := new WorkItemRow.Load(before);
      row.status := Dismissed;
      row.outcome := Some(reason);
      row.dismissalReason := Some(reason);
      row.AppendAudit("dismissed", actor, before, now);
      stored := stored[id := row.Value()];
      return Ok;
    }

    /** The start is committed before HubSpot is called; `t.result` is what the calls do. */
    method ExecuteHubSpotTask(id: string, t: TaskRequest, actor: string, now: int) returns (reply: Reply)
      modifies this
      ensures TaskScreen(t).Some? ==> reply == Error(TaskScreen(t).value) && stored == old(stored)
      ensures TaskScreen(t).None? ==> Answered(old(stored), id, ExecuteTask(t), actor, now, reply)
    {
      var screen := TaskScreen(t);
      if screen.Some? {
        return Error(screen.value);
      }
      if id !in stored {
        return Error(404);
      }
      var before := stored[id];
      if HasTask(before) {
        if before.idempotencyKey == Some(t.key) {
          return Duplicate(before.externalRecordId.value);
        }
        return Error(409);
      }
      if before.approval != Granted || before.status !in {Approved, InProgress} {
        return Error(409);
      }
      var row := StartTask(id, t, actor, now);
      if t.result.ProcessDied? {
        return NoReply;
      }
      reply := FinishTask(id, row, t.result, actor, now);
    }

    method StartTask(id: string, t: TaskRequest, actor: string, now: int) returns (row: WorkItemRow)
      requires id in stored
      modifies this
      ensures fresh(row) && row.Value() == TaskStarted(old(stored)[id], t, actor, now)
      ensures stored == old(stored)[id := row.Value()]
    {
      row := new WorkItemRow.Load(stored[id]);
      row.approval := Granted;
      row.status := InProgress;
      row.execution := Started;
      row.idempotencyKey := Some(t.key);
      row.executionError := None;
      row.AppendAudit("hubspot_task_execute_started", actor, stored[id], now);
      stored := stored[id := row.Value()];
    }

    method FinishTask(id: string, row: WorkItemRow, result: TaskResult, actor: string, now: int) returns (reply: Reply)
      requires id in stored && stored[id] == row.Value() && !result.ProcessDied?
      modifies this, row
      ensures stored == old(stored)[id := TaskFinished(old(stored)[id], result, actor, now)]
      ensures reply == if result.TaskVerified? && result.id != "" then Ok else Error(502)
    {
      if result.TaskVerified? && result.id != "" {
        row.SetTask(result.id, actor, now);
        reply := Ok;
      } else {
        row.SetTaskFailure(if result.TaskVerified? then "HubSpot returned no task id" else result.message, actor, now);
        reply := Error(502);
      }
      stored := stored[id := row.Value()];
    }

    /** The audit part of the retention purge. */
    method PurgeAuditHistories(cutoff: int, dryRun: bool) returns (touched: nat)
      modifies this
      ensures stored.Keys == old(stored).Keys
      ensures forall id :: id in stored ==> stored[id] == Purged(old(stored)[id], cutoff, dryRun)
      ensures touched == |Shortened(old(stored), old(stored).Keys, cutoff)|
    {
      touched := 0;
      var todo := stored.Keys;
      while todo != {}
        invariant todo <= old(stored).Keys && stored == Swept(old(stored), todo, cutoff, dryRun)
        invariant touched == |Shortened(old(stored), old(stored).Keys - todo, cutoff)|
        decreases |todo|
      {
        var id :| id in todo;
        var removed := PurgeOne(id, cutoff, dryRun);
        SweptNext(old(stored), todo, id, cutoff, dryRun);
        touched := touched + (if removed > 0 then 1 else 0);
        todo := todo - {id};
      }
      assert old(stored).Keys - todo == old(stored).Keys;
    }

    method PurgeOne(id: string, cutoff: int, dryRun: bool) returns (removed: nat)
      requires id in stored
      modifies this
      ensures stored == old(stored)[id := Purged(old(stored)[id], cutoff, dryRun)]
      ensures removed == |old(stored)[id].history| - |Kept(old(stored)[id].history, cutoff)|
    {
      var item := stored[id];
      var kept;
      kept, removed := Trim(item.history, cutoff);
      KeptShorter(item.history, cutoff);
      assert stored[id := item] == stored;
      if removed > 0 && !dryRun {
        stored := stored[id := item.(history := kept)];
      }
    }

    method Trim(history: seq<Entry>, cutoff: int) returns (kept: seq<Entry>, removed: nat)
      ensures kept == Kept(history, cutoff) && removed == |history| - |kept|
    {
      kept, removed := [], 0;
      for i := 0 to |history|
        invariant kept == Kept(history[..i], cutoff) && removed == i - |kept|
      {
        assert history[..i + 1][..i] == history[..i];
        var entry := history[i];
        if entry.timestamp.None? || entry.timestamp.value >= cutoff {
          kept := kept + [entry];
        } else {
          removed := removed + 1;
        }
      }
      assert history[..|history|] == history;
    }
  }

  /** Nothing is trimmed exactly when everything is kept. */
  lemma {:induction false} KeptShorter(history: seq<Entry>, cutoff: int)
    ensures |Kept(history, cutoff)| <= |history|
    ensures |Kept(history, cutoff)| == |history| ==> Kept(history, cutoff) == history
  {
    if history != [] {
      KeptShorter(history[..|history| - 1], cutoff);
    }
  }
}
