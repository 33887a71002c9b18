/**
 One item tried with any keys: how many external records it causes (btx_platform/integrations/flows.py, stubs.py).
 */
module FlowKeys {
  import opened Common
  import opened WorkItems
  import opened Flows

  /** A step, and the key it carries if it is an attempt. */
  datatype Try = Try(key: string, step: Flows.Step)

  /** Every record has an id, and an item with a record id carries the key of a record on file. */
  ghost predicate RecordsOk(w: World) {
    && (forall k :: k in w.recorded ==> w.recorded[k].1.referenceId != "")
    && (w.item.externalRecordId.Some? ==>
          && Truthy(w.item.externalRecordId)
          && w.item.idempotencyKey.Some? && w.item.idempotencyKey.value in w.recorded)
  }

  ghost predicate IsRun(worlds: seq<World>, results: seq<Flows.Result>, tries: seq<Try>, kind: Kind) {
    && |worlds| == |tries| + 1 && |results| == |tries|
    && RecordsOk(worlds[0]) && worlds[0].item.externalRecordId == None
    && forall i :: 0 <= i < |tries| ==> IsStep(worlds[i], results[i], worlds[i + 1], kind, tries[i])
  }

  ghost predicate IsStep(w: World, result: Flows.Result, w': World, kind: Kind, t: Try) {
    && (t.step.Endpoint? ==> !t.step.request.ExecuteTask?)
    && (result, w') == Flows.Next(w, kind, t.key, t.step)
  }

  /** The step is an attempt that reaches the adapter with a key not on file, and so causes a record. */
  ghost predicate Creates(w: World, kind: Kind, t: Try) {
    && t.step.Attempt? && MayBegin(w.item, t.step.sameTenant, kind, t.key)
    && (t.step.fate.Returns? || t.step.fate.wrote) && t.key !in w.recorded
  }

  /** Another item's write that causes one. */
  predicate OtherCreates(w: World, t: Try) { t.step.OtherItemWrites? && t.step.key !in w.recorded }

  /******* Single steps *******/

  /** What the adapter's store gains from a call. */
  lemma CallShape(w: World, kind: Kind, document: string, key: string)
    requires RecordsOk(w)
    ensures var called := AfterCall(w, kind, document, key);
            && called.item == w.item && called.recorded.Keys == w.recorded.Keys + {key}
            && |called.writes| == |w.writes| + (if key in w.recorded then 0 else 1)
            && RecordsOk(called)
  {
  }

  /** What a begun attempt leaves: the store as the call left it, if it got there, and the item with its key. */
  lemma BegunAttempt(w: World, kind: Kind, t: Try)
    requires t.step.Attempt? && RecordsOk(w) && MayBegin(w.item, t.step.sameTenant, kind, t.key)
    ensures var (result, w') := Flows.Next(w, kind, t.key, t.step);
            var called := if t.step.fate.Returns?
                || t.step.fate.wrote then AfterCall(w, kind, t.step.document, t.key) else w;
            && w'.recorded == called.recorded && w'.writes == called.writes
            && (if t.step.fate.Returns? then
                  && t.key in called.recorded && w'.item.idempotencyKey == Some(t.key)
                  && w'.item.externalRecordId == Some(called.recorded[t.key].1.referenceId)
                else
                  && !result.Returned? && w'.item.externalRecordId == w.item.externalRecordId
                  && w'.item.idempotencyKey in {w.item.idempotencyKey, Some(t.key)})
  {
    BeginKeepsRecord(w.item, t.step.sameTenant, kind, t.key, t.step.actor, t.step.now);
  }

  /** How an attempt changes the item and the store. */
  lemma AttemptShape(w: World, kind: Kind, t: Try)
    requires t.step.Attempt? && RecordsOk(w)
    ensures var (result, w') := Flows.Next(w, kind, t.key, t.step);
            && w.recorded.Keys <= w'.recorded.Keys
            && |w'.writes| == |w.writes| + (if Creates(w, kind, t) then 1 else 0)
            && RecordsOk(w')
            && (w.item.externalRecordId.Some? || result.Returned? ==> w'.item.externalRecordId.Some?)
  {
    if MayBegin(w.item, t.step.sameTenant, kind, t.key) {
      BegunAttempt(w, kind, t);
      CallShape(w, kind, t.step.document, t.key);
    }
  }

  lemma StepShape(w: World, result: Flows.Result, w': World, kind: Kind, t: Try)
    requires RecordsOk(w) && IsStep(w, result, w', kind, t)
    ensures RecordsOk(w') && w.recorded.Keys <= w'.recorded.Keys
    ensures |w'.writes| == |w.writes| + (if Creates(w, kind, t) || OtherCreates(w, t) then 1 else 0)
    ensures w.item.externalRecordId.Some? || result.Returned? ==> w'.item.externalRecordId.Some?
  {
    match t.step
    case Attempt(_, _, _, _, _, _) => AttemptShape(w, kind, t);
    case Endpoint(request, actor, now) => EndpointKeepsRecord(w.item, request, actor, now);
    case OtherItemWrites(_, _) =>
  }

  /** An item with a record id is only let through with the key of its record, which is on file. */
  lemma NoneOnceRecorded(w: World, kind: Kind, t: Try)
    requires RecordsOk(w) && w.item.externalRecordId.Some?
    ensures !Creates(w, kind, t)
  {
  }

  /******* Runs *******/

  lemma {:induction false} RunKeeps(worlds: seq<World>, results: seq<Flows.Result>, tries: seq<Try>, kind: Kind, n: nat)
    requires IsRun(worlds, results, tries, kind) && n < |worlds|
    ensures RecordsOk(worlds[n])
  {
    if n > 0 {
      RunKeeps(worlds, results, tries, kind, n - 1);
      StepShape(worlds[n - 1], results[n - 1], worlds[n], kind, tries[n - 1]);
    }
  }

  ghost predicate CreatesAt(worlds: seq<World>, tries: seq<Try>, kind: Kind, i: nat)
    requires i < |tries| < |worlds|
  {
    Creates(worlds[i], kind, tries[i])
  }

  /** The records the item caused with its first n steps; and those caused by attempts that did not return. */
  ghost function Caused(worlds: seq<World>, tries: seq<Try>, kind: Kind, n: nat): nat
    requires n <= |tries| < |worlds|
  {
    if n == 0 then 0
    else Caused(worlds, tries, kind, n - 1) + if CreatesAt(worlds, tries, kind, n - 1) then 1 else 0
  }

  ghost function Orphaned(worlds: seq<World>, results: seq<Flows.Result>, tries: seq<Try>, kind: Kind, n: nat): nat
    requires n <= |tries| < |worlds| && |results| == |tries|
  {
    if n == 0 then 0
    else Orphaned(worlds, results, tries, kind, n - 1)
         + if CreatesAt(worlds, tries, kind, n - 1) && !results[n - 1].Returned? then 1 else 0
  }

  ghost function ByOthers(worlds: seq<World>, tries: seq<Try>, n: nat): nat
    requires n <= |tries| < |worlds|
  {
    if n == 0 then 0
    else ByOthers(worlds, tries, n - 1) + if OtherCreates(worlds[n - 1], tries[n - 1]) then 1 else 0
  }

  /** What the adapter has recorded is what the item and the other items caused. */
  lemma {:induction false} RecordsAreCounted(worlds: seq<World>, results: seq<Flows.Result>, tries: seq<Try>,
                                             kind: Kind,
                                             n: nat)
    requires IsRun(worlds, results, tries, kind) && n < |worlds|
    ensures |worlds[n].writes| == |worlds[0].writes| + Caused(worlds, tries, kind, n) + ByOthers(worlds, tries, n)
  {
    if n > 0 {
      RecordsAreCounted(worlds, results, tries, kind, n - 1);
      RunKeeps(worlds, results, tries, kind, n - 1);
      StepShape(worlds[n - 1], results[n - 1], worlds[n], kind, tries[n - 1]);
    }
  }

  lemma StepOfRun(worlds: seq<World>, results: seq<Flows.Result>, tries: seq<Try>, kind: Kind, n: nat)
    requires IsRun(worlds, results, tries, kind) && n < |tries|
    ensures worlds[n].item.externalRecordId.Some? || results[n].Returned? ==> worlds[n + 1].item.externalRecordId.Some?
    ensures worlds[n].item.externalRecordId.Some? ==> !CreatesAt(worlds, tries, kind, n)
  {
    RunKeeps(worlds, results, tries, kind, n);
    StepShape(worlds[n], results[n], worlds[n + 1], kind, tries[n]);
    if worlds[n].item.externalRecordId.Some? {
      NoneOnceRecorded(worlds[n], kind, tries[n]);
    }
  }

  lemma StaysRecorded(worlds: seq<World>, results: seq<Flows.Result>, tries: seq<Try>, kind: Kind, m: nat, n: nat)
    requires IsRun(worlds, results, tries, kind) && m <= n <= |tries| && worlds[m].item.externalRecordId.Some?
    ensures worlds[n].item.externalRecordId.Some?
  {
    for i := m to n
      invariant worlds[i].item.externalRecordId.Some?
    {
      StepOfRun(worlds, results, tries, kind, i);
    }
  }

  /**
   Once an attempt has returned, or the item has its record otherwise, no attempt with any key causes another
   record.
   */
  lemma NoneAfterReturn(worlds: seq<World>, results: seq<Flows.Result>, tries: seq<Try>, kind: Kind, m: nat, n: nat)
    requires IsRun(worlds, results, tries, kind) && m < n < |tries|
    requires results[m].Returned? || worlds[m].item.externalRecordId.Some?
    ensures !CreatesAt(worlds, tries, kind, n)
  {
    StepOfRun(worlds, results, tries, kind, m);
    StaysRecorded(worlds, results, tries, kind, m + 1, n);
    StepOfRun(worlds, results, tries, kind, n);
  }

  /** The item causes one record for each attempt that wrote and did not return, and at most one more. */
  lemma AtMostOneIsNotOrphaned(worlds: seq<World>, results: seq<Flows.Result>, tries: seq<Try>, kind: Kind, n: nat)
    requires IsRun(worlds, results, tries, kind) && n <= |tries|
    ensures var caused, orphaned := Caused(worlds, tries, kind, n), Orphaned(worlds, results, tries, kind, n);
            && orphaned <= caused <= orphaned + 1
            && (caused == orphaned + 1 ==> worlds[n].item.externalRecordId.Some?)
  {
    for i := 0 to n
      invariant Orphaned(worlds, results, tries, kind, i) <= Caused(worlds, tries, kind, i)
      invariant Caused(worlds, tries, kind, i) <= Orphaned(worlds, results, tries, kind, i) + 1
      invariant Caused(worlds, tries, kind, i) == Orphaned(worlds, results, tries, kind, i) + 1 ==>
                  worlds[i].item.externalRecordId.Some?
    {
      StepOfRun(worlds, results, tries, kind, i);
    }
  }

  lemma {:induction false} SomeCausedExactlyWhen(worlds: seq<World>, tries: seq<Try>, kind: Kind, n: nat)
    requires n <= |tries| < |worlds|
    ensures Caused(worlds, tries, kind, n) > 0 <==> exists i :: 0 <= i < n && CreatesAt(worlds, tries, kind, i)
  {
    if n > 0 {
      SomeCausedExactlyWhen(worlds, tries, kind, n - 1);
    }
  }

  /** Some attempt caused a record and did not return, and a later one caused another. */
  ghost predicate OrphanedThenCreated(worlds: seq<World>, results: seq<Flows.Result>, tries: seq<Try>, kind: Kind,
                                      n: nat)
    requires n <= |tries| < |worlds| && |results| == |tries|
  {
    exists i, j :: 0 <= i < j < n && CreatesAt(worlds, tries, kind, i) && CreatesAt(worlds, tries, kind, j)
                   && !results[i].Returned?
  }

  lemma OrphanedThenCreatedNext(worlds: seq<World>, results: seq<Flows.Result>, tries: seq<Try>, kind: Kind, n: nat)
    requires IsRun(worlds, results, tries, kind) && n < |tries|
    ensures OrphanedThenCreated(worlds, results, tries, kind, n + 1) <==>
            OrphanedThenCreated(worlds, results, tries, kind, n)
            || (CreatesAt(worlds, tries, kind, n) && exists i :: 0 <= i < n && CreatesAt(worlds, tries, kind, i))
  {
    if CreatesAt(worlds, tries, kind, n) && exists i :: 0 <= i < n && CreatesAt(worlds, tries, kind, i) {
      var i :| 0 <= i < n && CreatesAt(worlds, tries, kind, i);
      if results[i].Returned? {
        NoneAfterReturn(worlds, results, tries, kind, i, n);
        assert false;
      }
      assert 0 <= i < n < n + 1;
    }
    if OrphanedThenCreated(worlds, results, tries, kind, n) {
      var i, j :| 0 <= i < j < n && CreatesAt(worlds, tries, kind, i) && CreatesAt(worlds, tries, kind, j)
                  && !results[i].Returned?;
      assert 0 <= i < j < n + 1;
    }
  }

  /**
   Tried with any keys, an item causes more than one record exactly when an attempt reached the adapter with a new key,
   did not return, and a later one reached it with another new key.
   */
  lemma ManyRecordsExactlyWhen(worlds: seq<World>, results: seq<Flows.Result>, tries: seq<Try>, kind: Kind, n: nat)
    requires IsRun(worlds, results, tries, kind) && n <= |tries|
    ensures Caused(worlds, tries, kind, n) > 1 <==> OrphanedThenCreated(worlds, results, tries, kind, n)
  {
    for i := 0 to n
      invariant Caused(worlds, tries, kind, i) > 1 <==> OrphanedThenCreated(worlds, results, tries, kind, i)
    {
      OrphanedThenCreatedNext(worlds, results, tries, kind, i);
      SomeCausedExactlyWhen(worlds, tries, kind, i);
    }
  }

  /** It happens: an attempt on any open item without a record dies after it wrote, and the next one takes a new key. */
  lemma NewKeyAfterDeath(w: World, kind: Kind, first: string, second: string, document: string, saved: Saved,
                         actor: string,
                         now: int)
    requires MayBegin(w.item, true, kind, first) && w.item.externalRecordId == None
    requires first !in w.recorded && second !in w.recorded && first != second
    ensures var t, u := Try(first, Attempt(document, true, Dies(true), saved, actor, now)),
                        Try(second, Attempt(document, true, Returns, saved, actor, now));
            Creates(w, kind, t) && Creates(Flows.Next(w, kind, first, t.step).1, kind, u)
  {
  }
}
