/**
 What an external write leaves of the item and of the adapter's store, told in the names the adapters use
 (btx_platform/integrations/flows.py, stubs.py).
 */
module FlowLaws {
  import opened Common
  import opened WorkItems
  import opened Flows

  predicate Present(s: Option<string>) { s.Some? && |s.value| > 0 }

  /** When a write may begin. */
  lemma BeginLaw(item: Item, sameTenant: bool, kind: Kind, key: string, actor: string, now: int)
    ensures var system := if kind.Quote? then "paperless_parts" else "erp_mes";
            Begin(item, sameTenant, kind, key, actor, now).BeginOk? <==>
              && sameTenant && item.approval == Granted && item.status in {Approved, InProgress}
              && (item.externalSystem == None || item.externalSystem == Some(system))
              && (Present(item.externalRecordId) ==> item.idempotencyKey == Some(key))
  {
  }

  /** What the start leaves: an item with its record stays as it is, any other is in progress under the key. */
  lemma StartLaw(item: Item, sameTenant: bool, kind: Kind, key: string, actor: string, now: int)
    requires Begin(item, sameTenant, kind, key, actor, now).BeginOk?
    ensures var started := Begin(item, sameTenant, kind, key, actor, now).item;
            if Present(item.externalRecordId) then started == item
            else
              && started.status == InProgress && started.execution == Execution.Started
                  && started.executionError == None
              && started.externalSystem == Some(if kind.Quote? then "paperless_parts" else "erp_mes")
              && started.idempotencyKey == Some(key) && started.externalRecordId == item.externalRecordId
              && started.approval == item.approval && started.details == item.details && started.outcome == item.outcome
              && |started.history| == |item.history| + 1 && started.history[..|item.history|] == item.history
              && started.history[|item.history|].action == "integration_execution_started"
              && started.history[|item.history|].fromState == Some(item.status)
              && started.history[|item.history|].toState == Some(InProgress)
  {
  }

  /** The first document of a key is recorded under the adapter's own name; whoever comes later gets that reference. */
  lemma RecordLaw(recorded: Recorded, kind: Kind, document: string, key: string)
    ensures var recorded' := Record(recorded, kind, document, key);
            && recorded'.Keys == recorded.Keys + {key}
            && (forall k :: k in recorded ==> recorded'[k] == recorded[k])
            && (key !in recorded ==>
                  && recorded'[key].0 == document
                  && recorded'[key].1 == Reference(if kind.Quote? then "paperless_parts" else "erp_mes",
                                                   if kind.Quote? then "stub-quote-" + document
                                                       else "stub-order-" + document,
                                                   key))
  {
  }

  /** A returned attempt: executed, done, and carrying the id of the reference on file. */
  lemma ReturnLaw(w: World, kind: Kind, key: string, s: Step)
    requires s.Attempt? && Next(w, kind, key, s).0.Returned?
    ensures var (result, w') := Next(w, kind, key, s);
            && Begin(w.item, s.sameTenant, kind, key, s.actor, s.now).BeginOk?
            && w'.recorded == Record(w.recorded, kind, s.document, key) && result.reference == w'.recorded[key].1
            && w'.item.status == Executed && w'.item.execution == Done && w'.item.executionError == None
            && w'.item.externalRecordId == Some(result.reference.referenceId)
            && w'.item.idempotencyKey == Some(key) && w'.item.approval == Granted
            && (!Present(w.item.externalRecordId) ==>
                  w'.item.externalSystem == Some(if kind.Quote? then "paperless_parts" else "erp_mes"))
            && w'.item.history != []
            && var e := w'.item.history[|w'.item.history| - 1];
            e.action == "integration_execution_succeeded" && e.toState == Some(Executed) && e.actor == s.actor
  {
  }

  /**
   An adapter that raises, its caller keeping everything: the item is failed with the message, and its record id
   stays.
   */
  lemma RaiseLaw(w: World, kind: Kind, key: string, s: Step)
    requires s.Attempt? && s.fate.Raises? && s.saved == SavedAll
    requires Begin(w.item, s.sameTenant, kind, key, s.actor, s.now).BeginOk?
    ensures var (result, w') := Next(w, kind, key, s);
            && result == DidNotReturn
            && w'.recorded == (if s.fate.wrote then Record(w.recorded, kind, s.document, key) else w.recorded)
            && w'.item.execution == Execution.Failed && w'.item.executionError == Some(s.fate.message)
            && w'.item.externalRecordId == w.item.externalRecordId && w'.item.idempotencyKey == Some(key)
            && w'.item.status == (if Present(w.item.externalRecordId) then w.item.status else InProgress)
            && w'.item.history != []
            && w'.item.history[|w'.item.history| - 1].action == "integration_execution_failed"
  {
  }

  /**
   A refused attempt changes nothing; one that dies, or whose caller keeps less, leaves the item as it was or as
   it started.
   */
  lemma OtherwiseLaw(w: World, kind: Kind, key: string, s: Step)
    requires s.Attempt?
    ensures var (result, w') := Next(w, kind, key, s);
            var begun := Begin(w.item, s.sameTenant, kind, key, s.actor, s.now);
            && (begun.BeginRefused? ==> result == DidNotReturn && w' == w)
            && (begun.BeginOk? && s.fate.Returns? ==> result.Returned?)
            && (begun.BeginOk? && s.fate.Dies? ==>
                  && result == DidNotReturn
                  && w'.item == (if s.saved == SavedNothing then w.item else begun.item)
                  && w'.recorded == (if s.fate.wrote then Record(w.recorded, kind, s.document, key) else w.recorded))
            && (begun.BeginOk? && s.fate.Raises? && s.saved != SavedAll ==>
                  && result == DidNotReturn && w'.item == (if s.saved == SavedNothing then w.item else begun.item))
  {
  }
}
