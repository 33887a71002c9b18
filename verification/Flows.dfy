/**
 External writes through the integration adapters (btx_platform/integrations/flows.py, stubs.py).

 A write marks the item started, calls the adapter, and marks it executed or failed.  The adapter may raise,
 before or after it recorded the document, and the process may die anywhere; the same key is then tried again.
 */
module Flows {
  import opened Approvals
  import opened Common
  import opened WorkItems
  import WorkItemApi
  import WorkItemRuns

  datatype Kind = Quote | Order
  datatype Reference = Reference(system: string, referenceId: string, key: string)

  function SystemOf(kind: Kind): string { if kind == Quote then "paperless_parts" else "erp_mes" }

  function NewReference(kind: Kind, document: string, key: string): Reference {
    Reference(SystemOf(kind), (if kind == Quote then "stub-quote-" else "stub-order-") + document, key)
  }

  /** The adapter's store: one document and reference for each key. */
  type Recorded = map<string, (string, Reference)>

  class StubAdapter {
    const kind: Kind
    var recorded: Recorded

    constructor (kind: Kind)
      ensures this.kind == kind && recorded == map[]
    {
      this.kind := kind;
      recorded := map[];
    }

    /**
     `create_quote` and `create_order`: the first document of a key is recorded, any later call gets its
     reference.
     */
    method Create(document: string, key: string) returns (reference: Reference)
      modifies this
      ensures recorded == Record(old(recorded), kind, document, key) && key in recorded && reference == recorded[key].1
      ensures key in old(recorded) ==> recorded == old(recorded)
    {
      if key in recorded {
        return recorded[key].1;
      }
      reference := NewReference(kind, document, key);
      recorded := recorded[key := (document, reference)];
    }
  }

  function Record(recorded: Recorded, kind: Kind, document: string, key: string): Recorded {
    if key in recorded then recorded else recorded[key := (document, NewReference(kind, document, key))]
  }

  /******* The three parts of a write *******/

  datatype Begun = BeginRefused | BeginOk(item: Item)

  predicate MayBegin(item: Item, sameTenant: bool, kind: Kind, key: string) {
    && sameTenant
    && ApprovalGate(item)
    && item.externalSystem in {None, Some(SystemOf(kind))}
    && (Truthy(item.externalRecordId) ==> item.idempotencyKey == Some(key))
  }

  /** A retry of a write that is already on record passes without touching the item. */
  function Begin(item: Item, sameTenant: bool, kind: Kind, key: string, actor: string, now: int): Begun {
    if !MayBegin(item, sameTenant, kind, key) then BeginRefused
    else if Truthy(item.externalRecordId) then BeginOk(item)
    else BeginOk(Started(item, kind, key, actor, now))
  }

  function Started(item: Item, kind: Kind, key: string, actor: string, now: int): Item {
    Audited(item, item.(status := InProgress, execution := Execution.Started, externalSystem := Some(SystemOf(kind)),
                        idempotencyKey := Some(key), executionError := None),
            "integration_execution_started", actor, now)
  }

  function Complete(item: Item, reference: Reference, actor: string, now: int): Item {
    Audited(item, item.(status := Executed, execution := Done, externalRecordId := Some(reference.referenceId),
                        executionError := None),
            "integration_execution_succeeded", actor, now)
  }

  function Fail(item: Item, message: string, actor: string, now: int): Item {
    Audited(item, item.(execution := Execution.Failed, executionError := Some(message)),
            "integration_execution_failed", actor, now)
  }

  /** `_begin_execution` on the caller's row. */
  method BeginExecution(row: WorkItemApi.WorkItemRow, sameTenant: bool, kind: Kind, key: string, actor: string,
                        now: int) returns (begun: bool)
    modifies row
    ensures begun <==> Begin(old(row.Value()), sameTenant, kind, key, actor, now).BeginOk?
    ensures row.Value() == if begun then Begin(old(row.Value()), sameTenant, kind, key, actor, now).item
        else old(row.Value())
  {
    if !sameTenant {
      return false;
    }
    if row.approval != Granted || row.status !in {Approved, InProgress} {
      return false;
    }
    if row.externalSystem !in {None, Some(SystemOf(kind))} {
      return false;
    }
    if Truthy(row.externalRecordId) {
      return row.idempotencyKey == Some(key);
    }
    SetStarted(row, kind, key, actor, now);
    return true;
  }

  method SetStarted(row: WorkItemApi.WorkItemRow, kind: Kind, key: string, actor: string, now: int)
    modifies row
    ensures row.Value() == Started(old(row.Value()), kind, key, actor, now)
  {
    var before := row.Value();
    row.status := InProgress;
    row.execution := Execution.Started;
    row.externalSystem := Some(SystemOf(kind));
    row.idempotencyKey := Some(key);
    row.executionError := None;
    row.AppendAudit("integration_execution_started", actor, before, now);
  }

  /**
   `create_quote_from_work_item` and `create_order_from_work_item`; `failure` is what the adapter raises before
   recording, if it does.
   */
  method CreateFromWorkItem(adapter: StubAdapter, row: WorkItemApi.WorkItemRow, document: string, sameTenant: bool,
                            key: string,
                            failure: Option<string>, actor: string, now: int) returns (result: Option<Reference>)
    modifies adapter, row
    ensures var begun := Begin(old(row.Value()), sameTenant, adapter.kind, key, actor, now);
            if begun.BeginRefused? then
              result == None && row.Value() == old(row.Value()) && adapter.recorded == old(adapter.recorded)
            else if failure.Some? then
              result == None && row.Value() == Fail(begun.item, failure.value, actor, now)
                  && adapter.recorded == old(adapter.recorded)
            else
              && adapter.recorded == Record(old(adapter.recorded), adapter.kind, document, key)
              && key in adapter.recorded && result == Some(adapter.recorded[key].1)
              && row.Value() == Complete(begun.item, adapter.recorded[key].1, actor, now)
  {
    var begun := BeginExecution(row, sameTenant, adapter.kind, key, actor, now);
    if !begun {
      return None;
    }
    if failure.Some? {
      var before := row.Value();
      row.execution := Execution.Failed;
      row.executionError := failure;
      row.AppendAudit("integration_execution_failed", actor, before, now);
      return None;
    }
    var reference := adapter.Create(document, key);
    var before := row.Value();
    row.status := Executed;
    row.execution := Done;
    row.externalRecordId := Some(reference.referenceId);
    row.executionError := None;
    row.AppendAudit("integration_execution_succeeded", actor, before, now);
    return Some(reference);
  }

  /******* Attempts that fail, die and are repeated *******/

  /** One item and the adapter's store; `writes` is the history of records the adapter created. */
  datatype World = World(item: Item, recorded: Recorded, writes: seq<Reference>)

  /** What befalls an attempt after it began: `wrote` says whether the adapter got as far as recording. */
  datatype Fate = Returns | Raises(message: string, wrote: bool) | Dies(wrote: bool)

  /** How much of the item's in-memory change its caller committed when the attempt did not return. */
  datatype Saved = SavedNothing | SavedStart | SavedAll

  datatype Step =
    | Attempt(document: string, sameTenant: bool, fate: Fate, saved: Saved, actor: string, now: int)
    | Endpoint(request: Request, actor: string, now: int)
    | OtherItemWrites(document: string, key: string)

  datatype Result = Returned(reference: Reference) | DidNotReturn | Answered(reply: Reply)

  /** The adapter is called with the attempt's document. */
  function AfterCall(w: World, kind: Kind, document: string, key: string): World {
    w.(recorded := Record(w.recorded, kind, document, key),
       writes := if key in w.recorded then w.writes else w.writes + [NewReference(kind, document, key)])
  }

  ghost predicate CanStep(key: string, s: Step) {
    match s
    case Attempt(_, _, _, _, _, _) => true
    case Endpoint(request, _, _) => !request.ExecuteTask?
    case OtherItemWrites(_, other) => other != key
  }

  function AttemptStep(w: World, kind: Kind, key: string, s: Step): (Result, World)
    requires s.Attempt?
  {
    match Begin(w.item, s.sameTenant, kind, key, s.actor, s.now)
    case BeginRefused => (DidNotReturn, w)
    case BeginOk(started) =>
      var called := if s.fate.Returns? || s.fate.wrote then AfterCall(w, kind, s.document, key) else w;
      match s.fate
      case Returns =>
        var reference := called.recorded[key].1;
        (Returned(reference), called.(item := Complete(started, reference, s.actor, s.now)))
      case Raises(message, _) =>
        (DidNotReturn, called.(item := match s.saved
                                       case SavedNothing => w.item
                                       case SavedStart => started
                                       case SavedAll => Fail(started, message, s.actor, s.now)))
      case Dies(_) => (DidNotReturn, called.(item := if s.saved == SavedNothing then w.item else started))
  }

  function Next(w: World, kind: Kind, key: string, s: Step): (Result, World) {
    match s
    case Attempt(_, _, _, _, _, _) => AttemptStep(w, kind, key, s)
    case Endpoint(request, actor, now) =>
      var (reply, item) := Handle(w.item, request, actor, now);
      (Answered(reply), w.(item := item))
    case OtherItemWrites(document, other) => (DidNotReturn, AfterCall(w, kind, document, other))
  }

  ghost predicate IsRun(worlds: seq<World>, results: seq<Result>, steps: seq<Step>, kind: Kind, key: string) {
    && |worlds| == |steps| + 1 && |results| == |steps|
    && worlds[0].item.externalSystem == None && worlds[0].item.externalRecordId == None
    && key !in worlds[0].recorded && CountKey(worlds[0].writes, key) == 0
    && forall i :: 0 <= i < |steps| ==>
         CanStep(key, steps[i]) && (results[i], worlds[i + 1]) == Next(worlds[i], kind, key, steps[i])
  }

  /******* Once only *******/

  function CountKey(writes: seq<Reference>, key: string): nat {
    if writes == [] then 0
    else CountKey(writes[..|writes| - 1], key) + (if writes[|writes| - 1].key == key then 1 else 0)
  }

  /**
   The adapter created a record for the key exactly when it is on file, once; and the item's record id is that
   record's.
   */
  predicate WorldOk(w: World, kind: Kind, key: string) {
    && CountKey(w.writes, key) == (if key in w.recorded then 1 else 0)
    && (key in w.recorded ==> w.recorded[key].1.referenceId != "")
    && w.item.externalSystem in {None, Some(SystemOf(kind))}
    && (w.item.externalRecordId.Some? ==>
          && key in w.recorded
          && w.item.externalRecordId == Some(w.recorded[key].1.referenceId)
          && w.item.idempotencyKey == Some(key))
  }

  lemma CountKeyAppend(writes: seq<Reference>, reference: Reference, key: string)
    ensures CountKey(writes + [reference], key) == CountKey(writes, key) + (if reference.key == key then 1 else 0)
  {
    assert (writes + [reference])[..|writes|] == writes;
  }

  lemma AfterCallOk(w: World, kind: Kind, document: string, called: string, key: string)
    requires WorldOk(w, kind, key)
    ensures WorldOk(AfterCall(w, kind, document, called), kind, key)
    ensures key in w.recorded ==> key in AfterCall(w, kind, document, called).recorded
                                  && AfterCall(w, kind, document, called).recorded[key] == w.recorded[key]
  {
    CountKeyAppend(w.writes, NewReference(kind, document, called), key);
  }

  /** A record on file stays, the item's record id stays, and what is returned is the record on file. */
  predicate Keeps(w: World, result: Result, w': World, kind: Kind, key: string) {
    && WorldOk(w', kind, key)
    && (key in w.recorded ==> key in w'.recorded && w'.recorded[key] == w.recorded[key])
    && (w.item.externalRecordId.Some? ==> w'.item.externalRecordId == w.item.externalRecordId)
    && (result.Returned? ==> key in w'.recorded && result.reference == w'.recorded[key].1)
  }

  /** What a begun attempt says about the external record. */
  lemma BeginKeepsRecord(item: Item, sameTenant: bool, kind: Kind, key: string, actor: string, now: int)
    ensures var begun := Begin(item, sameTenant, kind, key, actor, now);
            begun.BeginOk? ==>
              && begun.item.externalRecordId == item.externalRecordId
              && begun.item.externalSystem in {item.externalSystem, Some(SystemOf(kind))}
              && (Truthy(item.externalRecordId) ==> begun.item == item)
              && (!Truthy(item.externalRecordId) ==> begun.item.externalSystem == Some(SystemOf(kind)))
              && begun.item.idempotencyKey == Some(key)
  {
  }

  /** An item that has begun fits the store it began with. */
  lemma BegunFits(w: World, sameTenant: bool, kind: Kind, key: string, actor: string, now: int)
    requires WorldOk(w, kind, key) && MayBegin(w.item, sameTenant, kind, key)
    ensures var started := Begin(w.item, sameTenant, kind, key, actor, now).item;
            && started.externalSystem in {None, Some(SystemOf(kind))} && started.idempotencyKey == Some(key)
            && started.externalRecordId == w.item.externalRecordId
            && WorldOk(w.(item := started), kind, key)
  {
    BeginKeepsRecord(w.item, sameTenant, kind, key, actor, now);
  }

  lemma ReturnKeeps(w: World, started: Item, kind: Kind, key: string, document: string, actor: string, now: int)
    requires WorldOk(w.(item := started), kind, key) && started.externalRecordId == w.item.externalRecordId
    requires started.idempotencyKey == Some(key)
    ensures var called := AfterCall(w, kind, document, key);
            && key in called.recorded
            && Keeps(w, Returned(called.recorded[key].1),
                     called.(item := Complete(started, called.recorded[key].1, actor, now)), kind, key)
  {
    AfterCallOk(w.(item := started), kind, document, key, key);
  }

  /** An attempt that did not return leaves the item it found, the started one, or a failed one with the same record. */
  lemma NoReturnKeeps(w: World, called: World, item: Item, kind: Kind, key: string)
    requires WorldOk(w, kind, key) && WorldOk(called, kind, key) && called.item == w.item
    requires key in w.recorded ==> key in called.recorded && called.recorded[key] == w.recorded[key]
    requires item.externalSystem in {None, Some(SystemOf(kind))} && item.externalRecordId == w.item.externalRecordId
    requires item.idempotencyKey in {w.item.idempotencyKey, Some(key)}
    ensures Keeps(w, DidNotReturn, called.(item := item), kind, key)
  {
  }

  /** Whatever an attempt meets, a record on file stays, and what it returns is that record's reference. */
  lemma AttemptKeeps(w: World, kind: Kind, key: string, s: Step)
    requires s.Attempt? && WorldOk(w, kind, key)
    ensures var (result, w') := AttemptStep(w, kind, key, s); Keeps(w, result, w', kind, key)
  {
    if MayBegin(w.item, s.sameTenant, kind, key) {
      BegunFits(w, s.sameTenant, kind, key, s.actor, s.now);
      var started := Begin(w.item, s.sameTenant, kind, key, s.actor, s.now).item;
      if s.fate.Returns? {
        ReturnKeeps(w, started, kind, key, s.document, s.actor, s.now);
      } else {
        AfterCallOk(w, kind, s.document, key, key);
        var called := if s.fate.wrote then AfterCall(w, kind, s.document, key) else w;
        var item := AttemptStep(w, kind, key, s).1.item;
        NoReturnKeeps(w, called, item, kind, key);
      }
    }
  }

  lemma NextKeeps(w: World, kind: Kind, key: string, s: Step)
    requires CanStep(key, s) && WorldOk(w, kind, key)
    ensures var (result, w') := Next(w, kind, key, s); Keeps(w, result, w', kind, key)
  {
    match s
    case Attempt(_, _, _, _, _, _) => AttemptKeeps(w, kind, key, s);
    case Endpoint(request, actor, now) => EndpointKeepsRecord(w.item, request, actor, now);
    case OtherItemWrites(document, other) => AfterCallOk(w, kind, document, other, key);
  }

  /** No other endpoint touches what an external write left on the item. */
  lemma EndpointKeepsRecord(item: Item, r: Request, actor: string, now: int)
    requires !r.ExecuteTask?
    ensures var item' := Handle(item, r, actor, now).1;
            && item'.externalSystem == item.externalSystem && item'.externalRecordId == item.externalRecordId
            && item'.idempotencyKey == item.idempotencyKey
  {
  }

  lemma {:induction false} RunKeeps(worlds: seq<World>, results: seq<Result>, steps: seq<Step>, kind: Kind,
                                    key: string, m: nat, n: nat)
    requires IsRun(worlds, results, steps, kind, key) && m <= n < |worlds|
    ensures WorldOk(worlds[m], kind, key) && WorldOk(worlds[n], kind, key)
    ensures key in worlds[m].recorded ==>
        key in worlds[n].recorded && worlds[n].recorded[key] == worlds[m].recorded[key]
    ensures worlds[m].item.externalRecordId.Some? ==> worlds[n].item.externalRecordId == worlds[m].item.externalRecordId
  {
    if m < n {
      RunKeeps(worlds, results, steps, kind, key, m, n - 1);
      StepOfRunKeeps(worlds, results, steps, kind, key, n - 1);
    } else if n > 0 {
      RunKeeps(worlds, results, steps, kind, key, n - 1, n - 1);
      StepOfRunKeeps(worlds, results, steps, kind, key, n - 1);
    }
  }

  lemma StepOfRunKeeps(worlds: seq<World>, results: seq<Result>, steps: seq<Step>, kind: Kind, key: string, n: nat)
    requires IsRun(worlds, results, steps, kind, key) && n < |steps| && WorldOk(worlds[n], kind, key)
    ensures Keeps(worlds[n], results[n], worlds[n + 1], kind, key)
  {
    assert (results[n], worlds[n + 1]) == Next(worlds[n], kind, key, steps[n]);
    NextKeeps(worlds[n], kind, key, steps[n]);
  }

  /**
   One item, always tried with the same key, through any number of attempts that return, raise or die at any
   point, with other requests and other items' writes in between: the adapter creates at most one record for
   the key, every attempt that returns returns the same reference, whatever document it was given, and the
   item's record id, once set, never changes.
   */
  lemma OnceOnly(worlds: seq<World>, results: seq<Result>, steps: seq<Step>, kind: Kind, key: string, n: nat)
    requires IsRun(worlds, results, steps, kind, key) && n < |worlds|
    ensures CountKey(worlds[n].writes, key) <= 1
    ensures forall i, j :: 0 <= i < j < n && results[i].Returned? && results[j].Returned? ==> results[i] == results[j]
    ensures forall i :: 0 <= i <= n && worlds[i].item.externalRecordId.Some? ==>
              worlds[n].item.externalRecordId == worlds[i].item.externalRecordId
  {
    RunKeeps(worlds, results, steps, kind, key, n, n);
    forall i | 0 <= i < n && results[i].Returned?
      ensures key in worlds[n].recorded && results[i].reference == worlds[n].recorded[key].1
    {
      RunKeeps(worlds, results, steps, kind, key, i, i);
      StepOfRunKeeps(worlds, results, steps, kind, key, i);
      RunKeeps(worlds, results, steps, kind, key, i + 1, n);
    }
    forall i | 0 <= i <= n && worlds[i].item.externalRecordId.Some?
      ensures worlds[n].item.externalRecordId == worlds[i].item.externalRecordId
    {
      RunKeeps(worlds, results, steps, kind, key, i, n);
    }
  }

  /******* Approval provenance *******/

  function DecisionOf(s: Step, result: Result): Decision {
    if s.Endpoint? && result.Answered? then WorkItemRuns.DecisionOf(s.request, result.reply) else Neither
  }

  ghost function Decisions(results: seq<Result>, steps: seq<Step>): seq<Decision>
    requires |results| == |steps|
  {
    seq(|steps|, i requires 0 <= i < |steps| => DecisionOf(steps[i], results[i]))
  }

  lemma NextMovesApproval(w: World, kind: Kind, key: string, s: Step)
    ensures var (result, w') := Next(w, kind, key, s);
            w'.item.approval == Granted <==> Carries(w.item.approval == Granted, DecisionOf(s, result))
  {
    if s.Endpoint? {
      WorkItemRuns.HandleMovesApproval(w.item, s.request, s.actor, s.now);
    }
  }

  lemma {:induction false} ApprovedExactlyWhileStanding(worlds: seq<World>, results: seq<Result>, steps: seq<Step>,
                                                        kind: Kind, key: string, n: nat)
    requires IsRun(worlds, results, steps, kind, key) && n < |worlds| && worlds[0].item.approval != Granted
    ensures worlds[n].item.approval == Granted <==> Stands(Decisions(results, steps), n)
  {
    if n > 0 {
      ApprovedExactlyWhileStanding(worlds, results, steps, kind, key, n - 1);
      StandsNext(Decisions(results, steps), n - 1);
      NextMovesApproval(worlds[n - 1], kind, key, steps[n - 1]);
    }
  }

  /** No write through an adapter begins unless a standing approval by a cro or admin allows it. */
  lemma WritesAreApproved(worlds: seq<World>, results: seq<Result>, steps: seq<Step>, kind: Kind, key: string, n: nat)
    requires IsRun(worlds, results, steps, kind, key) && n < |steps| && worlds[0].item.approval != Granted
    requires steps[n].Attempt?
        && Begin(worlds[n].item, steps[n].sameTenant, kind, key, steps[n].actor, steps[n].now).BeginOk?
    ensures Stands(Decisions(results, steps), n)
  {
    ApprovedExactlyWhileStanding(worlds, results, steps, kind, key, n);
  }

  /******* When an attempt gets through *******/

  /** The writes that may begin: own tenant, standing approval, and a status that is open for execution. */
  ghost predicate Open(worlds: seq<World>, results: seq<Result>, steps: seq<Step>, n: nat)
    requires |worlds| == |steps| + 1 && |results| == |steps| && n < |steps| && steps[n].Attempt?
  {
    steps[n].sameTenant && Stands(Decisions(results, steps), n) && worlds[n].item.status in {Approved, InProgress}
  }

  lemma BeginsExactlyWhenGateOpen(w: World, sameTenant: bool, kind: Kind, key: string)
    requires WorldOk(w, kind, key)
    ensures MayBegin(w.item, sameTenant, kind, key)
            <==> sameTenant && w.item.approval == Granted && w.item.status in {Approved, InProgress}
  {
  }

  lemma RefusedAttempt(w: World, kind: Kind, key: string, s: Step)
    requires s.Attempt? && !MayBegin(w.item, s.sameTenant, kind, key)
    ensures Next(w, kind, key, s) == (DidNotReturn, w)
  {
  }

  lemma ReturningAttempt(w: World, kind: Kind, key: string, s: Step)
    requires s.Attempt? && s.fate.Returns? && MayBegin(w.item, s.sameTenant, kind, key)
    ensures var (result, w') := Next(w, kind, key, s);
            && w'.recorded == Record(w.recorded, kind, s.document, key)
            && key in w'.recorded && result == Returned(w'.recorded[key].1)
            && w'.item.status == Executed && w'.item.externalRecordId == Some(w'.recorded[key].1.referenceId)
            && (key in w.recorded ==> w'.recorded == w.recorded && w'.writes == w.writes)
  {
  }

  /**
   Over every run: an attempt begins exactly when an approval stands and the status is approved or in progress, whether
   or not the item has its record already; any other attempt is refused and changes nothing.
   */
  lemma AttemptBeginsExactlyWhenOpen(worlds: seq<World>, results: seq<Result>, steps: seq<Step>, kind: Kind,
                                     key: string, n: nat)
    requires IsRun(worlds, results, steps, kind, key) && n < |steps| && worlds[0].item.approval != Granted
    requires steps[n].Attempt?
    ensures MayBegin(worlds[n].item, steps[n].sameTenant, kind, key) <==> Open(worlds, results, steps, n)
    ensures !Open(worlds, results, steps, n) ==> results[n] == DidNotReturn && worlds[n + 1] == worlds[n]
  {
    RunKeeps(worlds, results, steps, kind, key, n, n);
    ApprovedExactlyWhileStanding(worlds, results, steps, kind, key, n);
    BeginsExactlyWhenGateOpen(worlds[n], steps[n].sameTenant, kind, key);
    if !Open(worlds, results, steps, n) {
      RefusedAttempt(worlds[n], kind, key, steps[n]);
      assert (results[n], worlds[n + 1]) == (DidNotReturn, worlds[n]);
    }
  }

  /**
   A retry on an item that has its record, by an adapter that answers, returns that record without a new one exactly
   when the attempt is open.  After any returned attempt the status is executed, so the next one is refused until
   other requests have brought the item back to approved or in progress.
   */
  lemma RetryReturnsRecordExactlyWhenOpen(worlds: seq<World>, results: seq<Result>, steps: seq<Step>, kind: Kind,
                                          key: string, n: nat)
    requires IsRun(worlds, results, steps, kind, key) && n < |steps| && worlds[0].item.approval != Granted
    requires steps[n].Attempt? && steps[n].fate.Returns? && worlds[n].item.externalRecordId.Some?
    ensures key in worlds[n].recorded
    ensures results[n] == Returned(worlds[n].recorded[key].1) <==> Open(worlds, results, steps, n)
    ensures worlds[n + 1].recorded == worlds[n].recorded && worlds[n + 1].writes == worlds[n].writes
    ensures worlds[n + 1].item.externalRecordId == worlds[n].item.externalRecordId
    ensures results[n].Returned? ==> worlds[n + 1].item.status == Executed
  {
    RunKeeps(worlds, results, steps, kind, key, n, n + 1);
    AttemptBeginsExactlyWhenOpen(worlds, results, steps, kind, key, n);
    if Open(worlds, results, steps, n) {
      ReturningAttempt(worlds[n], kind, key, steps[n]);
    }
  }

  /******* The audit history *******/

  lemma AttemptKeepsAudit(w: World, kind: Kind, key: string, s: Step)
    requires s.Attempt? && WorkItemRuns.AuditOk(w.item) && WorkItemRuns.InOrder(w.item.history, s.now)
    ensures var item := Next(w, kind, key, s).1.item;
            WorkItemRuns.AuditOk(item) && WorkItemRuns.InOrder(item.history, s.now) && w.item.history <= item.history
  {
    if MayBegin(w.item, s.sameTenant, kind, key) {
      BeginKeepsAudit(w.item, s.sameTenant, kind, key, s.actor, s.now);
      var started := Begin(w.item, s.sameTenant, kind, key, s.actor, s.now).item;
      var (result, w') := AttemptStep(w, kind, key, s);
      var reference := if result.Returned? then result.reference else NewReference(kind, s.document, key);
      EndKeepsAudit(w.item, started, w'.item, reference, if s.fate.Raises? then s.fate.message else "", s.actor, s.now);
    }
  }

  /** However an attempt ends: as it was, started, completed or failed. */
  lemma EndKeepsAudit(before: Item, started: Item, item: Item, reference: Reference, message: string, actor: string,
                      now: int)
    requires WorkItemRuns.AuditOk(before) && WorkItemRuns.InOrder(before.history, now)
    requires WorkItemRuns.AuditOk(started) && WorkItemRuns.InOrder(started.history, now)
        && before.history <= started.history
    requires item in {before, started, Complete(started, reference, actor, now), Fail(started, message, actor, now)}
    ensures WorkItemRuns.AuditOk(item) && WorkItemRuns.InOrder(item.history, now) && before.history <= item.history
  {
    if item == Complete(started, reference, actor, now) {
      WriteKeepsAudit(started, item, "integration_execution_succeeded", actor, now);
    } else if item == Fail(started, message, actor, now) {
      WriteKeepsAudit(started, item, "integration_execution_failed", actor, now);
    }
  }

  lemma WriteKeepsAudit(before: Item, after: Item, action: string, actor: string, now: int)
    requires after == Audited(before, after, action, actor, now)
    requires WorkItemRuns.AuditOk(before) && WorkItemRuns.InOrder(before.history, now)
    ensures WorkItemRuns.AuditOk(after) && WorkItemRuns.InOrder(after.history, now) && before.history <= after.history
  {
    WorkItemRuns.AuditedKeepsAudit(before, after, action, actor, now);
  }

  lemma BeginKeepsAudit(item: Item, sameTenant: bool, kind: Kind, key: string, actor: string, now: int)
    requires MayBegin(item, sameTenant, kind, key) && WorkItemRuns.AuditOk(item)
        && WorkItemRuns.InOrder(item.history, now)
    ensures var begun := Begin(item, sameTenant, kind, key, actor, now).item;
            WorkItemRuns.AuditOk(begun) && WorkItemRuns.InOrder(begun.history, now) && item.history <= begun.history
  {
    if !Truthy(item.externalRecordId) {
      var started := Begin(item, sameTenant, kind, key, actor, now).item;
      WriteKeepsAudit(item, started, "integration_execution_started", actor, now);
    }
  }

  /** A clock that never goes back, read by every step that touches the item. */
  predicate Clocked(steps: seq<Step>, clock: seq<int>) {
    && |clock| == |steps| + 1
    && (forall i, j :: 0 <= i < j < |clock| ==> clock[i] <= clock[j])
    && (forall i :: 0 <= i < |steps| && !steps[i].OtherItemWrites? ==> steps[i].now == clock[i])
  }

  lemma LaterIsInOrder(history: seq<Entry>, now: int, later: int)
    requires WorkItemRuns.InOrder(history, now) && now <= later
    ensures WorkItemRuns.InOrder(history, later)
  {
  }

  lemma NextKeepsAudit(w: World, kind: Kind, key: string, s: Step, now: int)
    requires WorkItemRuns.AuditOk(w.item) && WorkItemRuns.InOrder(w.item.history, now)
    requires !s.OtherItemWrites? ==> s.now == now
    ensures var item := Next(w, kind, key, s).1.item;
            && WorkItemRuns.AuditOk(item) && WorkItemRuns.InOrder(item.history, now)
            && ((s.Endpoint? ==> !s.request.PurgeAudit?) ==> w.item.history <= item.history)
  {
    match s
    case Attempt(_, _, _, _, _, _) => AttemptKeepsAudit(w, kind, key, s);
    case Endpoint(request, actor, _) =>
      WorkItemRuns.HandleKeepsAudit(w.item, request, actor, now);
      if !request.PurgeAudit? {
        WorkItemRuns.HandleAppends(w.item, request, actor, now);
      }
    case OtherItemWrites(_, _) =>
  }

  /**
   The history replays to the current status at every moment of every run, through external writes of any fate
   too.
   */
  lemma {:induction false} AuditReplays(worlds: seq<World>, results: seq<Result>, steps: seq<Step>, kind: Kind,
                                        key: string,
                                        clock: seq<int>, n: nat)
    requires IsRun(worlds, results, steps, kind, key) && n < |worlds| && Clocked(steps, clock)
    requires WorkItemRuns.AuditOk(worlds[0].item) && WorkItemRuns.InOrder(worlds[0].item.history, clock[0])
    ensures WorkItemRuns.AuditOk(worlds[n].item) && WorkItemRuns.InOrder(worlds[n].item.history, clock[n])
  {
    if n > 0 {
      AuditReplays(worlds, results, steps, kind, key, clock, n - 1);
      NextKeepsAudit(worlds[n - 1], kind, key, steps[n - 1], clock[n - 1]);
      LaterIsInOrder(worlds[n].item.history, clock[n - 1], clock[n]);
    }
  }

  /** A purge request. */
  predicate Purges(s: Step) { s.Endpoint? && s.request.PurgeAudit? }

  /** However an attempt ends, the history stays replayable. */
  lemma AttemptReplays(start: Option<Status>, w: World, kind: Kind, key: string, s: Step)
    requires s.Attempt? && WorkItemRuns.ReplaysFrom(start, w.item)
    ensures WorkItemRuns.ReplaysFrom(start, AttemptStep(w, kind, key, s).1.item)
  {
    if MayBegin(w.item, s.sameTenant, kind, key) {
      var started := Begin(w.item, s.sameTenant, kind, key, s.actor, s.now).item;
      var (result, w') := AttemptStep(w, kind, key, s);
      var reference := if result.Returned? then result.reference else NewReference(kind, s.document, key);
      BeginReplays(start, w.item, s.sameTenant, kind, key, s.actor, s.now);
      EndReplays(start, w.item, started, w'.item, reference, if s.fate.Raises? then s.fate.message
                 else "", s.actor, s.now);
    }
  }

  lemma BeginReplays(start: Option<Status>, item: Item, sameTenant: bool, kind: Kind, key: string, actor: string,
                     now: int)
    requires MayBegin(item, sameTenant, kind, key) && WorkItemRuns.ReplaysFrom(start, item)
    ensures WorkItemRuns.ReplaysFrom(start, Begin(item, sameTenant, kind, key, actor, now).item)
  {
    if !Truthy(item.externalRecordId) {
      var started := Started(item, kind, key, actor, now);
      WorkItemRuns.AuditedReplays(start, item, started, "integration_execution_started", actor, now);
    }
  }

  lemma EndReplays(start: Option<Status>, before: Item, started: Item, item: Item, reference: Reference,
                   message: string,
                   actor: string, now: int)
    requires WorkItemRuns.ReplaysFrom(start, before) && WorkItemRuns.ReplaysFrom(start, started)
    requires item in {before, started, Complete(started, reference, actor, now), Fail(started, message, actor, now)}
    ensures WorkItemRuns.ReplaysFrom(start, item)
  {
    if item == Complete(started, reference, actor, now) {
      WorkItemRuns.AuditedReplays(start, started, item, "integration_execution_succeeded", actor, now);
    } else if item == Fail(started, message, actor, now) {
      WorkItemRuns.AuditedReplays(start, started, item, "integration_execution_failed", actor, now);
    }
  }

  lemma NextReplays(start: Option<Status>, w: World, kind: Kind, key: string, s: Step)
    requires WorkItemRuns.ReplaysFrom(start, w.item) && !Purges(s)
    ensures WorkItemRuns.ReplaysFrom(start, Next(w, kind, key, s).1.item)
  {
    match s
    case Attempt(_, _, _, _, _, _) => AttemptReplays(start, w, kind, key, s);
    case Endpoint(request, actor, now) =>
      WorkItemRuns.HandleReplays(start, w.item, request, actor, now);
    case OtherItemWrites(_, _) =>
  }

  /**
   Without purges, and whatever the clock does, the history replays from where it began to the current status at every
   moment, through external writes of any fate.
   */
  lemma {:induction false} WholeHistoryReplays(worlds: seq<World>, results: seq<Result>, steps: seq<Step>, kind: Kind,
                                               key: string, start: Option<Status>, n: nat)
    requires IsRun(worlds, results, steps, kind, key) && n < |worlds|
    requires WorkItemRuns.ReplaysFrom(start, worlds[0].item) && forall i :: 0 <= i < |steps| ==> !Purges(steps[i])
    ensures WorkItemRuns.ReplaysFrom(start, worlds[n].item)
  {
    if n > 0 {
      WholeHistoryReplays(worlds, results, steps, kind, key, start, n - 1);
      assert (results[n - 1], worlds[n]) == Next(worlds[n - 1], kind, key, steps[n - 1]);
      NextReplays(start, worlds[n - 1], kind, key, steps[n - 1]);
    }
  }

  lemma AttemptAppends(w: World, kind: Kind, key: string, s: Step)
    requires s.Attempt?
    ensures w.item.history <= AttemptStep(w, kind, key, s).1.item.history
  {
    if MayBegin(w.item, s.sameTenant, kind, key) {
      var started := Begin(w.item, s.sameTenant, kind, key, s.actor, s.now).item;
      var (result, w') := AttemptStep(w, kind, key, s);
      var reference := if result.Returned? then result.reference else NewReference(kind, s.document, key);
      assert w.item.history <= started.history;
      EndAppends(w.item, started, w'.item, reference, if s.fate.Raises? then s.fate.message else "", s.actor, s.now);
    }
  }

  lemma EndAppends(before: Item, started: Item, item: Item, reference: Reference, message: string, actor: string,
                   now: int)
    requires before.history <= started.history
    requires item in {before, started, Complete(started, reference, actor, now), Fail(started, message, actor, now)}
    ensures before.history <= item.history
  {
  }

  lemma NextAppends(w: World, kind: Kind, key: string, s: Step)
    requires !Purges(s)
    ensures w.item.history <= Next(w, kind, key, s).1.item.history
  {
    match s
    case Attempt(_, _, _, _, _, _) => AttemptAppends(w, kind, key, s);
    case Endpoint(request, actor, now) => WorkItemRuns.HandleAppends(w.item, request, actor, now);
    case OtherItemWrites(_, _) =>
  }

  /** While no purge comes in between, every earlier history is a prefix of every later one. */
  lemma HistoryIsAppendOnly(worlds: seq<World>, results: seq<Result>, steps: seq<Step>, kind: Kind, key: string,
                            m: nat, n: nat)
    requires IsRun(worlds, results, steps, kind, key) && m <= n < |worlds|
    requires forall i :: m <= i < n ==> !Purges(steps[i])
    ensures worlds[m].item.history <= worlds[n].item.history
  {
    for i := m to n
      invariant worlds[m].item.history <= worlds[i].item.history
    {
      assert (results[i], worlds[i + 1]) == Next(worlds[i], kind, key, steps[i]);
      NextAppends(worlds[i], kind, key, steps[i]);
    }
  }
}
