/**
 Every interleaving of ingest calls, workers and purges.

 A call reads its key, commits, enqueues and answers in separate steps; a worker commits the attempt, posts,
 commits the outcome and schedules a retry in separate steps, may crash in between, and may get its task again
 after the outcome; a purge may come at any moment.
 A process that dies simply takes no more steps.
 */
module DeliveryRuns {
  import opened Common
  import opened Forward
  import opened Delivery

  datatype Caller =
    | Start(key: string) | ReadMiss(key: string) | Persisted(key: string, id: Id) | Enqueued(key: string, id: Id)
    | Conflicted(key: string) | Returned(key: string, outcome: Delivery.Outcome)

  /** Which call wrote an event, and under which key. */
  datatype Birth = Birth(key: string, caller: nat)

  /**
   `jobs` is the queue, which is only ever appended to, with what became of each entry; born and purged are
   history.
   */
  datatype Sys = Sys(tables: Tables, callers: seq<Caller>, jobs: seq<Job>, born: map<Id, Birth>, purged: set<Id>)

  datatype Step =
    | Arrive(key: string) | Read(c: nat) | Commit(c: nat, id: Id) | CommitFails(c: nat) | ReadAgain(c: nat)
    | Enqueue(c: nat) | Tell(c: nat)
    | Work(j: nat, action: Action) | PurgeEvents(expired: set<Id>)

  const Initial := Sys(Tables(map[], map[], map[], map[]), [], [], map[], {})

  ghost predicate CanStep(s: Sys, step: Step) {
    match step
    case Arrive(_) => true
    case Read(c) => c < |s.callers| && s.callers[c].Start?
    case Commit(c, id) => c < |s.callers| && s.callers[c].ReadMiss? && id !in s.born
    case CommitFails(c) => c < |s.callers| && s.callers[c].ReadMiss?
    case ReadAgain(c) => c < |s.callers| && s.callers[c].Conflicted?
    case Enqueue(c) => c < |s.callers| && s.callers[c].Persisted?
    case Tell(c) => c < |s.callers| && s.callers[c].Enqueued?
    case Work(j, a) => j < |s.jobs| && Enabled(s.jobs[j], a)
    case PurgeEvents(expired) => expired <= s.tables.events.Keys
  }

  ghost function Next(s: Sys, step: Step, maxAttempts: int): Sys
    requires CanStep(s, step)
  {
    match step
    case Arrive(key) => s.(callers := s.callers + [Start(key)])
    case Read(c) =>
      var key := s.callers[c].key;
      var found := ReadKey(s.tables, key);
      s.(callers := s.callers[c := if found.Some? then Returned(key, Duplicate(found.value)) else ReadMiss(key)])
    case Commit(c, id) => CommitStep(s, c, id)
    case CommitFails(c) => s.(callers := s.callers[c := Conflicted(s.callers[c].key)])
    case ReadAgain(c) =>
      var key := s.callers[c].key;
      s.(callers := s.callers[c := Returned(key, Reread(s.tables, key))])
    case Enqueue(c) =>
      var id := s.callers[c].id;
      s.(callers := s.callers[c := Enqueued(s.callers[c].key, id)], jobs := s.jobs + [NewJob(id)])
    case Tell(c) => s.(callers := s.callers[c := Returned(s.callers[c].key, Accepted(s.callers[c].id))])
    case Work(j, a) =>
      var (row, job) := Act(RowOf(s.tables, s.jobs[j].event), s.jobs[j], a, maxAttempts);
      s.(tables := WithRow(s.tables, s.jobs[j].event, row), jobs := s.jobs[j := job])
    case PurgeEvents(expired) => s.(tables := Purge(s.tables, expired), purged := s.purged + expired)
  }

  ghost function CommitStep(s: Sys, c: nat, id: Id): Sys
    requires c < |s.callers| && s.callers[c].ReadMiss?
  {
    var key := s.callers[c].key;
    match CommitEvent(s.tables, key, id)
    case None => s.(callers := s.callers[c := Conflicted(key)])
    case Some(t) => s.(tables := t, callers := s.callers[c := Persisted(key, id)], born := s.born[id := Birth(key, c)])
  }

  ghost predicate IsRun(states: seq<Sys>, steps: seq<Step>, maxAttempts: int) {
    && |states| == |steps| + 1
    && states[0] == Initial
    && forall i :: 0 <= i < |steps| ==>
        CanStep(states[i], steps[i]) && states[i + 1] == Next(states[i], steps[i], maxAttempts)
  }

  /******* The invariant *******/

  ghost predicate Queued(jobs: seq<Job>, id: Id) {
    exists j :: 0 <= j < |jobs| && jobs[j].event == id
  }

  predicate FreshRow(row: Row) {
    && row.logs == [] && row.deadLetter.None?
    && (row.event.Some? ==> row.event.value.attempts == 0 && row.event.value.status == Received)
  }

  ghost predicate CallerOk(s: Sys, c: nat)
    requires c < |s.callers|
  {
    match s.callers[c]
    case Persisted(key, id) => id in s.born && s.born[id] == Birth(key, c) && FreshRow(RowOf(s.tables, id))
    case Enqueued(key, id) => id in s.born && s.born[id] == Birth(key, c) && Queued(s.jobs, id)
    case Returned(key, Accepted(id)) => id in s.born && s.born[id] == Birth(key, c) && Queued(s.jobs, id)
    case Returned(key, Duplicate(id)) => key != "" && id in s.born && s.born[id].key == key
    case _ => true
  }

  /**
   An event exists from its commit to its purge, keeps its key, and was announced by the call that wrote it or is
   about to be.
   */
  ghost predicate BirthOk(s: Sys, id: Id)
    requires id in s.born
  {
    && (id in s.tables.events <==> id !in s.purged)
    && (id in s.tables.events ==> s.tables.events[id].key == s.born[id].key)
    && s.born[id].caller < |s.callers|
    && (|| s.callers[s.born[id].caller] == Persisted(s.born[id].key, id)
        || HasEnqueued(s.callers[s.born[id].caller], s.born[id].key, id))
  }

  /** The call has put its event on the queue, whether or not it lives to answer. */
  predicate HasEnqueued(caller: Caller, key: string, id: Id) {
    caller == Enqueued(key, id) || caller == Returned(key, Accepted(id))
  }

  ghost predicate JobOk(s: Sys, j: nat, maxAttempts: int)
    requires j < |s.jobs|
  {
    var id := s.jobs[j].event;
    && id in s.born && s.born[id].caller < |s.callers|
    && HasEnqueued(s.callers[s.born[id].caller], s.born[id].key, id)
    && ChainOk(RowOf(s.tables, id), s.jobs[j], maxAttempts)
  }

  ghost predicate NothingOutsideBorn(s: Sys) {
    && s.tables.events.Keys <= s.born.Keys
    && s.tables.logs.Keys <= s.tables.events.Keys
    && s.tables.dead.Keys <= s.tables.events.Keys
    && s.purged <= s.born.Keys
  }

  ghost predicate JobsDistinct(jobs: seq<Job>) {
    forall i, j :: 0 <= i < j < |jobs| ==> jobs[i].event != jobs[j].event
  }

  ghost predicate CallersOk(s: Sys) {
    forall c :: 0 <= c < |s.callers| ==> CallerOk(s, c)
  }

  ghost predicate BirthsOk(s: Sys) {
    forall id :: id in s.born ==> BirthOk(s, id)
  }

  ghost predicate JobsOk(s: Sys, maxAttempts: int) {
    forall j :: 0 <= j < |s.jobs| ==> JobOk(s, j, maxAttempts)
  }

  ghost predicate SysOk(s: Sys, maxAttempts: int) {
    && KeysOk(s.tables) && NothingOutsideBorn(s) && BirthsOk(s)
    && CallersOk(s)
    && JobsOk(s, maxAttempts) && JobsDistinct(s.jobs)
  }

  /******* Each step keeps it *******/

  /** A call that only moves on, without a new event, keeps the invariant. */
  lemma CallerMoves(s: Sys, c: nat, to: Caller, maxAttempts: int)
    requires SysOk(s, maxAttempts) && c < |s.callers|
    requires s.callers[c].Start? || s.callers[c].ReadMiss? || s.callers[c].Conflicted?
    requires to.ReadMiss? || to.Conflicted? || (to.Returned? && to.outcome.Rejected?)
             || (to.Returned? && to.outcome.Duplicate? && to.key != "" && to.outcome.id in s.born
                 && s.born[to.outcome.id].key == to.key)
    ensures SysOk(s.(callers := s.callers[c := to]), maxAttempts)
  {
    var s' := s.(callers := s.callers[c := to]);
    forall k | 0 <= k < |s'.callers|
      ensures CallerOk(s', k)
    {
      assert CallerOk(s, k);
    }
    forall j | 0 <= j < |s'.jobs|
      ensures JobOk(s', j, maxAttempts)
    {
      assert JobOk(s, j, maxAttempts);
    }
  }

  lemma ArriveKeeps(s: Sys, key: string, maxAttempts: int)
    requires SysOk(s, maxAttempts)
    ensures SysOk(s.(callers := s.callers + [Start(key)]), maxAttempts)
  {
    var s' := s.(callers := s.callers + [Start(key)]);
    forall k | 0 <= k < |s'.callers|
      ensures CallerOk(s', k)
    {
      assert k < |s.callers| ==> CallerOk(s, k);
    }
    forall j | 0 <= j < |s'.jobs|
      ensures JobOk(s', j, maxAttempts)
    {
      assert JobOk(s, j, maxAttempts);
    }
  }

  /** A key found in the table belongs to an event born under that key. */
  lemma FoundKeyIsBorn(s: Sys, key: string, maxAttempts: int)
    requires SysOk(s, maxAttempts) && ReadKey(s.tables, key).Some?
    ensures var id := ReadKey(s.tables, key).value; key != "" && id in s.born && s.born[id].key == key
  {
    assert BirthOk(s, ReadKey(s.tables, key).value);
  }

  /** A committed event has a fresh row, and no other row changes. */
  lemma CommitRows(s: Sys, c: nat, id: Id, t: Tables)
    requires NothingOutsideBorn(s) && c < |s.callers| && id !in s.born
    requires CommitEvent(s.tables, s.callers[c].key, id) == Some(t)
    ensures FreshRow(RowOf(t, id))
    ensures forall other :: other != id ==> RowOf(t, other) == RowOf(s.tables, other)
  {
    assert id !in s.tables.events.Keys;
  }

  lemma CommitKeepsKeys(t: Tables, key: string, id: Id)
    requires KeysOk(t) && CommitEvent(t, key, id).Some?
    ensures KeysOk(CommitEvent(t, key, id).value)
  {
  }

  lemma CommitKeepsTables(s: Sys, c: nat, id: Id, maxAttempts: int)
    requires SysOk(s, maxAttempts) && CanStep(s, Commit(c, id))
    ensures KeysOk(CommitStep(s, c, id).tables) && NothingOutsideBorn(CommitStep(s, c, id))
  {
    if CommitEvent(s.tables, s.callers[c].key, id).Some? {
      CommitKeepsKeys(s.tables, s.callers[c].key, id);
    }
  }

  lemma CommitKeepsBirths(s: Sys, c: nat, id: Id, maxAttempts: int)
    requires SysOk(s, maxAttempts) && CanStep(s, Commit(c, id))
    ensures BirthsOk(CommitStep(s, c, id))
  {
    var s' := CommitStep(s, c, id);
    assert id !in s.tables.events.Keys && id !in s.purged;
    forall other | other in s'.born
      ensures BirthOk(s', other)
    {
      assert other != id ==> BirthOk(s, other);
    }
  }

  lemma CommitKeepsCallers(s: Sys, c: nat, id: Id, t: Tables, maxAttempts: int)
    requires SysOk(s, maxAttempts) && CanStep(s, Commit(c, id))
    requires CommitEvent(s.tables, s.callers[c].key, id) == Some(t)
    ensures CallersOk(CommitStep(s, c, id))
  {
    var s' := CommitStep(s, c, id);
    CommitRows(s, c, id, t);
    forall k | 0 <= k < |s'.callers|
      ensures CallerOk(s', k)
    {
      assert CallerOk(s, k);
    }
  }

  lemma CommitKeepsJobs(s: Sys, c: nat, id: Id, t: Tables, maxAttempts: int)
    requires SysOk(s, maxAttempts) && CanStep(s, Commit(c, id))
    requires CommitEvent(s.tables, s.callers[c].key, id) == Some(t)
    ensures JobsOk(CommitStep(s, c, id), maxAttempts)
  {
    var s' := CommitStep(s, c, id);
    CommitRows(s, c, id, t);
    forall j | 0 <= j < |s'.jobs|
      ensures JobOk(s', j, maxAttempts)
    {
      assert JobOk(s, j, maxAttempts);
    }
  }

  lemma CommitKeeps(s: Sys, c: nat, id: Id, maxAttempts: int)
    requires SysOk(s, maxAttempts) && CanStep(s, Commit(c, id))
    ensures SysOk(CommitStep(s, c, id), maxAttempts)
  {
    match CommitEvent(s.tables, s.callers[c].key, id)
    case None => CallerMoves(s, c, Conflicted(s.callers[c].key), maxAttempts);
    case Some(t) =>
      CommitKeepsTables(s, c, id, maxAttempts);
      CommitKeepsBirths(s, c, id, maxAttempts);
      CommitKeepsCallers(s, c, id, t, maxAttempts);
      CommitKeepsJobs(s, c, id, t, maxAttempts);
  }

  /** An event about to be enqueued is not in the queue yet. */
  lemma PersistedIsNotQueued(s: Sys, c: nat, maxAttempts: int)
    requires SysOk(s, maxAttempts) && CanStep(s, Enqueue(c))
    ensures !Queued(s.jobs, s.callers[c].id)
  {
    assert CallerOk(s, c);
    forall j | 0 <= j < |s.jobs|
      ensures s.jobs[j].event != s.callers[c].id
    {
      assert JobOk(s, j, maxAttempts);
    }
  }

  lemma EnqueueKeepsJobs(s: Sys, c: nat, maxAttempts: int)
    requires SysOk(s, maxAttempts) && CanStep(s, Enqueue(c))
    ensures var s' := Next(s, Enqueue(c), maxAttempts); JobsOk(s', maxAttempts) && JobsDistinct(s'.jobs)
  {
    var s' := Next(s, Enqueue(c), maxAttempts);
    var id := s.callers[c].id;
    assert CallerOk(s, c);
    PersistedIsNotQueued(s, c, maxAttempts);
    FreshChainOk(RowOf(s.tables, id), id, maxAttempts);
    forall j | 0 <= j < |s'.jobs|
      ensures JobOk(s', j, maxAttempts)
    {
      if j < |s.jobs| {
        assert JobOk(s, j, maxAttempts);
        assert s.jobs[j].event != id;
      }
    }
  }

  lemma EnqueueKeeps(s: Sys, c: nat, maxAttempts: int)
    requires SysOk(s, maxAttempts) && CanStep(s, Enqueue(c))
    ensures SysOk(Next(s, Enqueue(c), maxAttempts), maxAttempts)
  {
    var s' := Next(s, Enqueue(c), maxAttempts);
    EnqueueKeepsJobs(s, c, maxAttempts);
    assert CallerOk(s, c);
    assert s'.jobs[|s.jobs|].event == s.callers[c].id;
    forall k | 0 <= k < |s'.callers|
      ensures CallerOk(s', k)
    {
      assert CallerOk(s, k);
      QueuedStays(s.jobs, s'.jobs);
    }
    forall id | id in s'.born
      ensures BirthOk(s', id)
    {
      assert BirthOk(s, id);
    }
  }

  lemma TellKeeps(s: Sys, c: nat, maxAttempts: int)
    requires SysOk(s, maxAttempts) && CanStep(s, Tell(c))
    ensures SysOk(Next(s, Tell(c), maxAttempts), maxAttempts)
  {
    var s' := Next(s, Tell(c), maxAttempts);
    forall k | 0 <= k < |s'.callers|
      ensures CallerOk(s', k)
    {
      assert CallerOk(s, k);
    }
    forall id | id in s'.born
      ensures BirthOk(s', id)
    {
      assert BirthOk(s, id) && CallerOk(s, c);
    }
    forall j | 0 <= j < |s'.jobs|
      ensures JobOk(s', j, maxAttempts)
    {
      assert JobOk(s, j, maxAttempts) && CallerOk(s, c);
    }
  }

  lemma QueuedStays(before: seq<Job>, after: seq<Job>)
    requires |before| <= |after| && forall j :: 0 <= j < |before| ==> after[j].event == before[j].event
    ensures forall id :: Queued(before, id) ==> Queued(after, id)
  {
    forall id | Queued(before, id)
      ensures Queued(after, id)
    {
      var j :| 0 <= j < |before| && before[j].event == id;
      assert after[j].event == id;
    }
  }

  /** A worker's step touches the row of its own event only, and keeps every key row. */
  lemma WorkRows(s: Sys, j: nat, a: Action, maxAttempts: int)
    requires CanStep(s, Work(j, a)) && KeysOk(s.tables) && NothingOutsideBorn(s)
    ensures var t, id := Next(s, Work(j, a), maxAttempts).tables, s.jobs[j].event;
            var (row, job) := Act(RowOf(s.tables, id), s.jobs[j], a, maxAttempts);
            && RowOf(t, id) == row
            && (forall other :: other != id ==> RowOf(t, other) == RowOf(s.tables, other))
            && t.events.Keys == s.tables.events.Keys
            && t.keys == s.tables.keys
            && (id in t.events ==> t.events[id].key == s.tables.events[id].key)
            && NothingOutsideBorn(Next(s, Work(j, a), maxAttempts))
            && job.event == id
  {
    var id := s.jobs[j].event;
    var row := Act(RowOf(s.tables, id), s.jobs[j], a, maxAttempts).0;
    ActKeepsShape(RowOf(s.tables, id), s.jobs[j], a, maxAttempts);
    WithRowRows(s.tables, id, row);
  }

  /** A task's step neither creates nor deletes its event, never changes its key, and deletes no dead letter. */
  lemma ActKeepsShape(row: Row, job: Job, a: Action, maxAttempts: int)
    requires Enabled(job, a)
    ensures var (row', job') := Act(row, job, a, maxAttempts);
            && job'.event == job.event
            && (row.event.None? ==> row' == row)
            && (row.event.Some? ==> row'.event.Some? && row'.event.value.key == row.event.value.key)
            && (row.deadLetter.Some? ==> row'.deadLetter.Some?)
  {
  }

  lemma WithRowRows(t: Tables, id: Id, row: Row)
    requires (row.event.Some? <==> id in t.events) && (id in t.dead ==> row.deadLetter.Some?)
    ensures var t' := WithRow(t, id, row);
            && RowOf(t', id) == row
            && (forall other :: other != id ==> RowOf(t', other) == RowOf(t, other))
            && t'.events.Keys == t.events.Keys && t'.keys == t.keys
            && t'.logs.Keys <= t.logs.Keys + {id} && t'.dead.Keys <= t.dead.Keys + {id}
            && (row == RowOf(t, id) ==> t'.logs == t.logs && t'.dead == t.dead)
  {
    if row == RowOf(t, id) && id in t.dead {
      assert t.dead[id := t.dead[id]] == t.dead;
    }
  }

  lemma WorkKeeps(s: Sys, j: nat, a: Action, maxAttempts: int)
    requires SysOk(s, maxAttempts) && CanStep(s, Work(j, a))
    ensures SysOk(Next(s, Work(j, a), maxAttempts), maxAttempts)
  {
    var s' := Next(s, Work(j, a), maxAttempts);
    WorkRows(s, j, a, maxAttempts);
    assert JobOk(s, j, maxAttempts);
    ActKeepsChain(RowOf(s.tables, s.jobs[j].event), s.jobs[j], a, maxAttempts);
    WorkKeepsTables(s, s', s.jobs[j].event);
    WorkKeepsCallers(s, s', s.jobs[j].event);
    WorkKeepsJobs(s, s', j, maxAttempts);
  }

  /** `s'` differs from `s` in the row of one event, whose key stays, and in its job. */
  ghost predicate OneRowChanged(s: Sys, s': Sys, id: Id) {
    && s'.callers == s.callers && s'.born == s.born && s'.purged == s.purged
    && s'.tables.keys == s.tables.keys && s'.tables.events.Keys == s.tables.events.Keys
    && (forall other :: other != id ==> RowOf(s'.tables, other) == RowOf(s.tables, other))
    && (id in s.tables.events ==> s'.tables.events[id].key == s.tables.events[id].key)
    && |s'.jobs| == |s.jobs| && forall j :: 0 <= j < |s.jobs| ==> s'.jobs[j].event == s.jobs[j].event
  }

  lemma WorkKeepsTables(s: Sys, s': Sys, id: Id)
    requires OneRowChanged(s, s', id) && KeysOk(s.tables) && BirthsOk(s)
    ensures KeysOk(s'.tables) && BirthsOk(s')
  {
    forall other | other in s.tables.events
      ensures s'.tables.events[other].key == s.tables.events[other].key
    {
      if other != id {
        assert RowOf(s'.tables, other) == RowOf(s.tables, other);
      }
    }
    forall other | other in s'.born
      ensures BirthOk(s', other)
    {
      assert BirthOk(s, other);
    }
  }

  lemma WorkKeepsCallers(s: Sys, s': Sys, id: Id)
    requires OneRowChanged(s, s', id) && CallersOk(s)
    requires id in s.born && s.born[id].caller < |s.callers| && !s.callers[s.born[id].caller].Persisted?
    ensures CallersOk(s')
  {
    QueuedStays(s.jobs, s'.jobs);
    forall k | 0 <= k < |s'.callers|
      ensures CallerOk(s', k)
    {
      assert CallerOk(s, k);
    }
  }

  lemma WorkKeepsJobs(s: Sys, s': Sys, j: nat, maxAttempts: int)
    requires j < |s.jobs| && OneRowChanged(s, s', s.jobs[j].event) && JobsOk(s, maxAttempts) && JobsDistinct(s.jobs)
    requires forall k :: 0 <= k < |s.jobs| && k != j ==> s'.jobs[k] == s.jobs[k]
    requires ChainOk(RowOf(s'.tables, s.jobs[j].event), s'.jobs[j], maxAttempts)
    ensures JobsOk(s', maxAttempts) && JobsDistinct(s'.jobs)
  {
    forall k | 0 <= k < |s'.jobs|
      ensures JobOk(s', k, maxAttempts)
    {
      assert JobOk(s, k, maxAttempts);
      if k != j {
        assert s.jobs[k].event != s.jobs[j].event;
      }
    }
  }

  lemma PurgeKeeps(s: Sys, expired: set<Id>, maxAttempts: int)
    requires SysOk(s, maxAttempts) && CanStep(s, PurgeEvents(expired))
    ensures SysOk(Next(s, PurgeEvents(expired), maxAttempts), maxAttempts)
  {
    var s' := Next(s, PurgeEvents(expired), maxAttempts);
    PurgeRows(s.tables, expired);
    forall id | id in s'.born
      ensures BirthOk(s', id)
    {
      assert BirthOk(s, id);
    }
    forall k | 0 <= k < |s'.callers|
      ensures CallerOk(s', k)
    {
      assert CallerOk(s, k);
    }
    forall j | 0 <= j < |s'.jobs|
      ensures JobOk(s', j, maxAttempts)
    {
      assert JobOk(s, j, maxAttempts);
      PurgeKeepsChain(RowOf(s.tables, s.jobs[j].event), s.jobs[j], maxAttempts);
    }
  }

  lemma PurgeRows(t: Tables, expired: set<Id>)
    ensures forall id :: RowOf(Purge(t, expired), id) == if id in expired then Row(None, [], None) else RowOf(t, id)
  {
  }

  lemma NextKeeps(s: Sys, step: Step, maxAttempts: int)
    requires SysOk(s, maxAttempts) && CanStep(s, step)
    ensures SysOk(Next(s, step, maxAttempts), maxAttempts)
  {
    match step
    case Arrive(key) => ArriveKeeps(s, key, maxAttempts);
    case Read(c) => LookupKeeps(s, c, ReadMiss(s.callers[c].key), maxAttempts);
    case Commit(c, id) => CommitKeeps(s, c, id, maxAttempts);
    case CommitFails(c) => CallerMoves(s, c, Conflicted(s.callers[c].key), maxAttempts);
    case ReadAgain(c) => LookupKeeps(s, c, Returned(s.callers[c].key, Rejected(409)), maxAttempts);
    case Enqueue(c) => EnqueueKeeps(s, c, maxAttempts);
    case Tell(c) => TellKeeps(s, c, maxAttempts);
    case Work(j, a) => WorkKeeps(s, j, a, maxAttempts);
    case PurgeEvents(expired) => PurgeKeeps(s, expired, maxAttempts);
  }

  /** A call that looks its key up and returns a duplicate, or goes on as `miss` when there is none. */
  lemma LookupKeeps(s: Sys, c: nat, miss: Caller, maxAttempts: int)
    requires SysOk(s, maxAttempts) && c < |s.callers| && (s.callers[c].Start? || s.callers[c].Conflicted?)
    requires miss.ReadMiss? || (miss.Returned? && miss.outcome.Rejected?)
    ensures var key := s.callers[c].key;
            var found := ReadKey(s.tables, key);
            SysOk(s.(callers := s.callers[c := if found.Some? then Returned(key, Duplicate(found.value))
                                          else miss]), maxAttempts)
  {
    var key := s.callers[c].key;
    var found := ReadKey(s.tables, key);
    if found.Some? {
      FoundKeyIsBorn(s, key, maxAttempts);
      CallerMoves(s, c, Returned(key, Duplicate(found.value)), maxAttempts);
    } else {
      CallerMoves(s, c, miss, maxAttempts);
    }
  }

  /******* What every run keeps *******/

  lemma {:induction false} RunKeeps(states: seq<Sys>, steps: seq<Step>, maxAttempts: int, n: nat)
    requires IsRun(states, steps, maxAttempts) && n < |states|
    ensures SysOk(states[n], maxAttempts)
  {
    if n > 0 {
      RunKeeps(states, steps, maxAttempts, n - 1);
      NextKeeps(states[n - 1], steps[n - 1], maxAttempts);
    }
  }

  predicate Answers(caller: Caller, key: string, id: Id) {
    caller == Returned(key, Accepted(id)) || caller == Returned(key, Duplicate(id))
  }

  /**
   At every moment of every interleaving: a key has at most one persisted event; any two calls with
   that key whose events have not been purged were answered with the same event, which is the
   persisted one; and only the call that wrote it was told it was new.
   */
  lemma OneEventPerKey(states: seq<Sys>, steps: seq<Step>, maxAttempts: int, n: nat, key: string)
    requires IsRun(states, steps, maxAttempts) && n < |states| && key != ""
    ensures var s := states[n];
            && (forall a, b | a in s.tables.events && b in s.tables.events ::
                s.tables.events[a].key == key == s.tables.events[b].key ==> a == b)
            && (forall c, id | 0 <= c < |s.callers| && Answers(s.callers[c], key, id) && id !in s.purged ::
                  key in s.tables.keys && s.tables.keys[key] == id)
            && (forall c, d, id | 0 <= c < |s.callers| && 0 <= d < |s.callers| ::
                  s.callers[c] == s.callers[d] == Returned(key, Accepted(id)) ==> c == d)
  {
    var s := states[n];
    RunKeeps(states, steps, maxAttempts, n);
    forall c, id | 0 <= c < |s.callers| && Answers(s.callers[c], key, id)
      ensures id in s.born && s.born[id].key == key
      ensures s.callers[c].outcome.Accepted? ==> s.born[id].caller == c
      ensures id !in s.purged ==> key in s.tables.keys && s.tables.keys[key] == id
    {
      assert CallerOk(s, c);
      assert BirthOk(s, id);
    }
    forall c, d, id | 0 <= c < |s.callers| && 0 <= d < |s.callers|
        && s.callers[c] == s.callers[d] == Returned(key, Accepted(id))
      ensures c == d
    {
      assert CallerOk(s, c) && CallerOk(s, d);
    }
  }

  /** Every key row points at a live event that carries the key, also with purges in between. */
  lemma KeyRowsStayLive(states: seq<Sys>, steps: seq<Step>, maxAttempts: int, n: nat)
    requires IsRun(states, steps, maxAttempts) && n < |states|
    ensures KeysOk(states[n].tables)
  {
    RunKeeps(states, steps, maxAttempts, n);
  }

  /**
   The queue holds an event exactly when its call has enqueued it, holds it once, and only after its commit.  Whoever
   was told an event is accepted can rely on the queue; only a call that died before its answer knows less.
   */
  lemma QueuedExactlyWhenEnqueued(states: seq<Sys>, steps: seq<Step>, maxAttempts: int, n: nat, id: Id)
    requires IsRun(states, steps, maxAttempts) && n < |states|
    ensures var s := states[n];
            && (Queued(s.jobs, id) <==> exists c, key :: 0 <= c < |s.callers| && HasEnqueued(s.callers[c], key, id))
            && (Queued(s.jobs, id) ==> id in s.born && (id in s.tables.events || id in s.purged))
            && JobsDistinct(s.jobs)
  {
    var s := states[n];
    RunKeeps(states, steps, maxAttempts, n);
    if Queued(s.jobs, id) {
      var j :| 0 <= j < |s.jobs| && s.jobs[j].event == id;
      assert JobOk(s, j, maxAttempts);
      assert BirthOk(s, id);
      assert HasEnqueued(s.callers[s.born[id].caller], s.born[id].key, id);
    }
    if c, key :| 0 <= c < |s.callers| && HasEnqueued(s.callers[c], key, id) {
      assert CallerOk(s, c);
    }
  }

  /** No worker crashed during the run, and no task was delivered twice. */
  ghost predicate NoCrash(steps: seq<Step>) {
    forall i :: 0 <= i < |steps| && steps[i].Work? ==> Smooth(steps[i].action)
  }

  ghost predicate NoPurge(steps: seq<Step>) {
    forall i :: 0 <= i < |steps| ==> !steps[i].PurgeEvents?
  }

  lemma {:induction false} WithoutCrashNothingIsLost(states: seq<Sys>, steps: seq<Step>, maxAttempts: int, n: nat)
    requires IsRun(states, steps, maxAttempts) && n < |states| && NoCrash(steps)
    ensures forall j :: 0 <= j < |states[n].jobs| ==> Extra(states[n].jobs[j]) == 0
  {
    if n > 0 {
      WithoutCrashNothingIsLost(states, steps, maxAttempts, n - 1);
      var before, step := states[n - 1], steps[n - 1];
      if step.Work? {
        assert Act(RowOf(before.tables, before.jobs[step.j].event), before.jobs[step.j], step.action,
                   maxAttempts).1.lost == 0;
      }
    }
  }

  lemma {:induction false} WithoutPurgeNothingIsPurged(states: seq<Sys>, steps: seq<Step>, maxAttempts: int, n: nat)
    requires IsRun(states, steps, maxAttempts) && n < |states| && NoPurge(steps)
    ensures states[n].purged == {}
  {
    if n > 0 {
      WithoutPurgeNothingIsPurged(states, steps, maxAttempts, n - 1);
    }
  }

  /**
   The chain invariant of a queued event bounds its posts by the budget, and its 2xx answers by one more than the
   crashes and redeliveries.
   */
  lemma JobBounds(row: Row, job: Job, maxAttempts: int)
    requires ChainOk(row, job, maxAttempts)
    ensures |job.posts| <= Budget(job, maxAttempts) && Oks(job.posts) <= Extra(job) + 1
  {
    if job.phase.Replied? {
      RepliedOks(job);
    }
  }

  /**
   Crashes, redeliveries and purges included: the destination gets at most max(1, max_attempts) posts for an
   event plus one for each crash of its worker and each redelivery of its task, and at most one 2xx plus as many.
   */
  lemma PostsAreBounded(states: seq<Sys>, steps: seq<Step>, maxAttempts: int, n: nat, j: nat)
    requires IsRun(states, steps, maxAttempts) && n < |states| && j < |states[n].jobs|
    ensures |states[n].jobs[j].posts| <= Budget(states[n].jobs[j], maxAttempts)
    ensures Oks(states[n].jobs[j].posts) <= Extra(states[n].jobs[j]) + 1
  {
    RunKeeps(states, steps, maxAttempts, n);
    assert JobOk(states[n], j, maxAttempts);
    JobBounds(RowOf(states[n].tables, states[n].jobs[j].event), states[n].jobs[j], maxAttempts);
  }

  /** The key under which the event of a queue entry was delivered. */
  ghost function KeyOf(s: Sys, j: nat): string
    requires j < |s.jobs| && s.jobs[j].event in s.born
  {
    s.born[s.jobs[j].event].key
  }

  /**
   End to end, with no worker crash and no purge: however many deliveries carry one key and however
   they and the workers interleave, at most one event of that key is ever forwarded, and the
   destination gets at most max(1, max_attempts) posts and at most one 2xx for the key.
   */
  lemma EndToEnd(states: seq<Sys>, steps: seq<Step>, maxAttempts: int, n: nat, key: string)
    requires IsRun(states, steps, maxAttempts) && n < |states| && NoCrash(steps) && NoPurge(steps) && key != ""
    ensures var s := states[n];
            && (forall j :: 0 <= j < |s.jobs| ==> s.jobs[j].event in s.born)
            && (forall i, j :: 0 <= i < |s.jobs| && 0 <= j < |s.jobs| && KeyOf(s, i) == key == KeyOf(s, j) ==> i == j)
            && (forall j :: 0 <= j < |s.jobs| ==>
                  && |s.jobs[j].posts| <= (if maxAttempts > 1 then maxAttempts else 1)
                  && Oks(s.jobs[j].posts) <= 1)
  {
    var s := states[n];
    RunKeeps(states, steps, maxAttempts, n);
    WithoutCrashNothingIsLost(states, steps, maxAttempts, n);
    WithoutPurgeNothingIsPurged(states, steps, maxAttempts, n);
    forall j | 0 <= j < |s.jobs|
      ensures s.jobs[j].event in s.born && s.jobs[j].event in s.tables.events
      ensures s.tables.events[s.jobs[j].event].key == KeyOf(s, j)
      ensures |s.jobs[j].posts| <= (if maxAttempts > 1 then maxAttempts else 1) && Oks(s.jobs[j].posts) <= 1
    {
      assert JobOk(s, j, maxAttempts);
      assert BirthOk(s, s.jobs[j].event);
      PostsAreBounded(states, steps, maxAttempts, n, j);
    }
  }

  /**
   A live event's counter is its log rows plus the attempts lost to crashes, refused by the database or still in
   flight, and an event marked dead has its dead letter.
   */
  lemma ForwardAccounting(states: seq<Sys>, steps: seq<Step>, maxAttempts: int, n: nat, j: nat)
    requires IsRun(states, steps, maxAttempts) && n < |states| && j < |states[n].jobs|
    requires states[n].jobs[j].event in states[n].tables.events
    ensures var s, job := states[n], states[n].jobs[j];
            var event, row := s.tables.events[job.event], RowOf(s.tables, job.event);
            var inFlight := if job.phase.Posting? || job.phase.Replied? then 1 else 0;
            && event.attempts == |row.logs| + job.lost + job.unsaved + inFlight
            && LogsIncrease(row.logs, event.attempts)
            && (event.status == Dead ==> job.event in s.tables.dead)
            && (job.reruns == 0 ==> job.unsaved == 0)
  {
    RunKeeps(states, steps, maxAttempts, n);
    assert JobOk(states[n], j, maxAttempts);
  }

  /** Some of the first n steps began the task of queue entry j again although its event was dead. */
  ghost predicate BegunDead(states: seq<Sys>, steps: seq<Step>, j: nat, n: nat)
    requires |states| == |steps| + 1 && n <= |steps|
  {
    exists i :: 0 <= i < n && BeginsDead(states[i], steps[i], j)
  }

  ghost predicate BeginsDead(s: Sys, step: Step, j: nat) {
    && step.Work? && step.j == j < |s.jobs| && step.action.DoBegin?
    && s.jobs[j].event in s.tables.events && s.tables.events[s.jobs[j].event].status == Dead
  }

  lemma RevivedNext(s: Sys, step: Step, maxAttempts: int, j: nat)
    requires SysOk(s, maxAttempts) && CanStep(s, step) && j < |s.jobs|
    requires s.jobs[j].event in Next(s, step, maxAttempts).tables.events
    ensures var row, row' :=
        RowOf(s.tables, s.jobs[j].event), RowOf(Next(s, step, maxAttempts).tables, s.jobs[j].event);
            row.event.Some? && (Revived(row') <==> Revived(row) || BeginsDead(s, step, j))
  {
    var id := s.jobs[j].event;
    assert JobOk(s, j, maxAttempts) && BirthOk(s, id);
    match step
    case Commit(c, other) =>
      if CommitEvent(s.tables, s.callers[c].key, other).Some? {
        CommitRows(s, c, other, CommitEvent(s.tables, s.callers[c].key, other).value);
      }
    case Work(k, a) =>
      WorkRows(s, k, a, maxAttempts);
      if k == j {
        RevivedExactlyWhenBegunAgain(RowOf(s.tables, id), s.jobs[j], a, maxAttempts);
      } else {
        assert s.jobs[k].event != id;
      }
    case PurgeEvents(expired) => PurgeRows(s.tables, expired);
    case _ =>
  }

  /** An entry that is not there yet has an event nothing was forwarded for. */
  lemma NewEntryIsFresh(s: Sys, step: Step, maxAttempts: int, j: nat)
    requires SysOk(s, maxAttempts) && CanStep(s, step) && |s.jobs| <= j < |Next(s, step, maxAttempts).jobs|
    ensures FreshRow(RowOf(Next(s, step, maxAttempts).tables, Next(s, step, maxAttempts).jobs[j].event))
  {
    if step.Enqueue? {
      assert CallerOk(s, step.c);
    }
  }

  lemma {:induction false} NoBeginBeforeQueued(states: seq<Sys>, steps: seq<Step>, maxAttempts: int, n: nat, j: nat)
    requires IsRun(states, steps, maxAttempts) && n < |states| && |states[n].jobs| <= j
    ensures !BegunDead(states, steps, j, n)
  {
    if n > 0 {
      assert CanStep(states[n - 1], steps[n - 1]);
      NoBeginBeforeQueued(states, steps, maxAttempts, n - 1, j);
    }
  }

  lemma BegunDeadNext(states: seq<Sys>, steps: seq<Step>, j: nat, n: nat)
    requires |states| == |steps| + 1 && n < |steps|
    ensures BegunDead(states, steps, j, n + 1) <==> BegunDead(states, steps, j, n) || BeginsDead(states[n], steps[n], j)
  {
  }

  /** The dead letter of queue entry j's event is there, and the event lives without being dead. */
  ghost predicate RevivedAt(s: Sys, j: nat)
    requires j < |s.jobs|
  {
    Revived(RowOf(s.tables, s.jobs[j].event))
  }

  lemma RevivedStep(s: Sys, step: Step, maxAttempts: int, j: nat)
    requires SysOk(s, maxAttempts) && CanStep(s, step) && j < |Next(s, step, maxAttempts).jobs|
    requires Next(s, step, maxAttempts).jobs[j].event in Next(s, step, maxAttempts).tables.events
    ensures RevivedAt(Next(s, step, maxAttempts), j) <==> j < |s.jobs| && (RevivedAt(s, j) || BeginsDead(s, step, j))
    ensures j < |s.jobs| ==> s.jobs[j].event in s.tables.events
  {
    if j < |s.jobs| {
      assert Next(s, step, maxAttempts).jobs[j].event == s.jobs[j].event;
      RevivedNext(s, step, maxAttempts, j);
    } else {
      NewEntryIsFresh(s, step, maxAttempts, j);
    }
  }

  lemma RevivedStepOfRun(states: seq<Sys>, steps: seq<Step>, maxAttempts: int, n: nat, j: nat)
    requires IsRun(states, steps, maxAttempts) && n < |steps| && j < |states[n + 1].jobs|
    requires states[n + 1].jobs[j].event in states[n + 1].tables.events
    ensures RevivedAt(states[n + 1], j) <==>
            j < |states[n].jobs| && (RevivedAt(states[n], j) || BeginsDead(states[n], steps[n], j))
    ensures j < |states[n].jobs| ==> states[n].jobs[j].event in states[n].tables.events
  {
    RunKeeps(states, steps, maxAttempts, n);
    RevivedStep(states[n], steps[n], maxAttempts, j);
  }

  lemma {:induction false} RevivedExactlyWhenBegunDead(states: seq<Sys>, steps: seq<Step>, maxAttempts: int, n: nat,
                                                       j: nat)
    requires IsRun(states, steps, maxAttempts) && n < |states| && j < |states[n].jobs|
    requires states[n].jobs[j].event in states[n].tables.events
    ensures RevivedAt(states[n], j) <==> BegunDead(states, steps, j, n)
  {
    assert n > 0;
    RevivedStepOfRun(states, steps, maxAttempts, n - 1, j);
    BegunDeadNext(states, steps, j, n - 1);
    if j < |states[n - 1].jobs| {
      RevivedExactlyWhenBegunDead(states, steps, maxAttempts, n - 1, j);
    } else {
      NoBeginBeforeQueued(states, steps, maxAttempts, n - 1, j);
    }
  }

  /** A live event is dead exactly when dead-lettered, if and only if its task never began again while it was dead. */
  lemma DeadExactlyWhenLettered(states: seq<Sys>, steps: seq<Step>, maxAttempts: int, n: nat, j: nat)
    requires IsRun(states, steps, maxAttempts) && n < |states| && j < |states[n].jobs|
    requires states[n].jobs[j].event in states[n].tables.events
    ensures var t, id := states[n].tables, states[n].jobs[j].event;
            (t.events[id].status == Dead <==> id in t.dead) <==> !BegunDead(states, steps, j, n)
  {
    ForwardAccounting(states, steps, maxAttempts, n, j);
    RevivedExactlyWhenBegunDead(states, steps, maxAttempts, n, j);
  }

  /**
   Commit and enqueue are two steps.  If the call dies in between, its event is never queued, and until it is
   purged every later delivery of the key is answered as a duplicate of it: the event is not forwarded at all.
   */
  lemma {:induction false} DeathBeforeEnqueueLosesEvent(states: seq<Sys>, steps: seq<Step>, maxAttempts: int, m: nat,
                                                        n: nat, c: nat)
    requires IsRun(states, steps, maxAttempts) && m <= n < |states|
    requires c < |states[m].callers| && states[m].callers[c].Persisted?
    requires forall i :: m <= i < n ==> steps[i] != Enqueue(c)
    ensures c < |states[n].callers| && states[n].callers[c] == states[m].callers[c]
    ensures var key, id := states[m].callers[c].key, states[m].callers[c].id;
            && !Queued(states[n].jobs, id)
            && (key != "" && id !in states[n].purged ==> ReadKey(states[n].tables, key) == Some(id))
  {
    if m < n {
      DeathBeforeEnqueueLosesEvent(states, steps, maxAttempts, m, n - 1, c);
      CallerStays(states[n - 1], steps[n - 1], maxAttempts, c);
    }
    RunKeeps(states, steps, maxAttempts, n);
    PersistedIsNotQueued(states[n], c, maxAttempts);
    assert CallerOk(states[n], c) && BirthOk(states[n], states[n].callers[c].id);
  }

  lemma CallerStays(s: Sys, step: Step, maxAttempts: int, c: nat)
    requires CanStep(s, step) && c < |s.callers| && s.callers[c].Persisted? && step != Enqueue(c)
    ensures var s' := Next(s, step, maxAttempts); c < |s'.callers| && s'.callers[c] == s.callers[c]
  {
  }

  /******* Progress *******/

  ghost function JobRank(s: Sys, j: nat, maxAttempts: int): int
    requires j < |s.jobs|
  {
    Rank(RowOf(s.tables, s.jobs[j].event), s.jobs[j], maxAttempts)
  }

  /** How many of the first n steps were steps of queue entry j. */
  ghost function StepsOf(steps: seq<Step>, j: nat, n: nat): nat
    requires n <= |steps|
  {
    if n == 0 then 0 else StepsOf(steps, j, n - 1) + (if steps[n - 1].Work? && steps[n - 1].j == j then 1 else 0)
  }

  lemma RankOnlyMovesByItsOwnSteps(s: Sys, step: Step, maxAttempts: int, j: nat)
    requires SysOk(s, maxAttempts) && CanStep(s, step) && j < |s.jobs| && !step.PurgeEvents?
    requires step.Work? && step.j == j ==> Smooth(step.action) && s.jobs[j].event in s.tables.events
    ensures var s' := Next(s, step, maxAttempts);
            && j < |s'.jobs|
            && (step.Work? && step.j == j ==> 0 <= JobRank(s', j, maxAttempts) < JobRank(s, j, maxAttempts))
            && (!(step.Work? && step.j == j) ==>
                s'.jobs[j] == s.jobs[j] && JobRank(s', j, maxAttempts) == JobRank(s, j, maxAttempts))
  {
    assert JobOk(s, j, maxAttempts);
    match step
    case Commit(c, id) =>
      if CommitEvent(s.tables, s.callers[c].key, id).Some? {
        CommitRows(s, c, id, CommitEvent(s.tables, s.callers[c].key, id).value);
      }
    case Work(k, a) =>
      WorkRows(s, k, a, maxAttempts);
      if k == j {
        ActMakesProgress(RowOf(s.tables, s.jobs[j].event), s.jobs[j], a, maxAttempts);
      } else {
        assert s.jobs[k].event != s.jobs[j].event;
      }
    case _ =>
  }

  lemma {:induction false} NoStepsBeforeQueued(states: seq<Sys>, steps: seq<Step>, maxAttempts: int, n: nat, j: nat)
    requires IsRun(states, steps, maxAttempts) && n < |states| && |states[n].jobs| <= j
    ensures StepsOf(steps, j, n) == 0
  {
    if n > 0 {
      assert CanStep(states[n - 1], steps[n - 1]);
      NoStepsBeforeQueued(states, steps, maxAttempts, n - 1, j);
    }
  }

  /** Without purges every queued event is still there. */
  lemma QueuedEventLives(states: seq<Sys>, steps: seq<Step>, maxAttempts: int, n: nat, j: nat)
    requires IsRun(states, steps, maxAttempts) && n < |states| && NoPurge(steps) && j < |states[n].jobs|
    ensures SysOk(states[n], maxAttempts) && JobOk(states[n], j, maxAttempts)
    ensures states[n].jobs[j].event in states[n].tables.events
  {
    RunKeeps(states, steps, maxAttempts, n);
    WithoutPurgeNothingIsPurged(states, steps, maxAttempts, n);
    assert JobOk(states[n], j, maxAttempts);
    assert BirthOk(states[n], states[n].jobs[j].event);
  }

  /** Only an enqueue adds an entry, for an event no forward has touched yet. */
  lemma NewEntryRank(s: Sys, step: Step, maxAttempts: int, j: nat)
    requires SysOk(s, maxAttempts) && CanStep(s, step) && !step.PurgeEvents?
    requires |s.jobs| <= j < |Next(s, step, maxAttempts).jobs|
    requires Next(s, step, maxAttempts).jobs[j].event in Next(s, step, maxAttempts).tables.events
    ensures JobRank(Next(s, step, maxAttempts), j, maxAttempts) == 4 * (if maxAttempts > 1 then maxAttempts else 1)
  {
    if step.Enqueue? {
      assert CallerOk(s, step.c);
    }
  }

  lemma {:induction false} StepsArePaidByRank(states: seq<Sys>, steps: seq<Step>, maxAttempts: int, n: nat, j: nat)
    requires IsRun(states, steps, maxAttempts) && n < |states| && NoCrash(steps) && NoPurge(steps)
    requires j < |states[n].jobs|
    ensures 0 <= JobRank(states[n], j, maxAttempts)
    ensures StepsOf(steps, j, n) + JobRank(states[n], j, maxAttempts) <= 4 * (if maxAttempts > 1 then maxAttempts
                                                                              else 1)
  {
    assert n > 0;
    RankStepOfRun(states, steps, maxAttempts, n - 1, j);
    if j < |states[n - 1].jobs| {
      StepsArePaidByRank(states, steps, maxAttempts, n - 1, j);
    } else {
      NoStepsBeforeQueued(states, steps, maxAttempts, n - 1, j);
    }
  }

  /**
   One step of a run pays one unit of rank if it is the entry's own, and nothing otherwise; a new entry has it
   all.
   */
  lemma RankStepOfRun(states: seq<Sys>, steps: seq<Step>, maxAttempts: int, n: nat, j: nat)
    requires IsRun(states, steps, maxAttempts) && n < |steps| && NoCrash(steps) && NoPurge(steps)
    requires j < |states[n + 1].jobs|
    ensures var own := if steps[n].Work? && steps[n].j == j then 1 else 0;
            var rank := JobRank(states[n + 1], j, maxAttempts);
            if j < |states[n].jobs| then rank + own <= JobRank(states[n], j, maxAttempts) && (own == 1 ==> 0 <= rank)
                                         && (own == 0 ==> rank == JobRank(states[n], j, maxAttempts))
            else own == 0 && rank == 4 * (if maxAttempts > 1 then maxAttempts else 1)
  {
    var before, step := states[n], steps[n];
    assert CanStep(before, step) && states[n + 1] == Next(before, step, maxAttempts);
    RunKeeps(states, steps, maxAttempts, n);
    if j < |before.jobs| {
      QueuedEventLives(states, steps, maxAttempts, n, j);
      RankOnlyMovesByItsOwnSteps(before, step, maxAttempts, j);
    } else {
      QueuedEventLives(states, steps, maxAttempts, n + 1, j);
      NewEntryRank(before, step, maxAttempts, j);
    }
  }

  /**
   With no crash and no purge, a queue entry takes at most four steps for each allowed attempt; until it
   has ended its worker can always take a step; and when it has ended, the event is done or dead.
   */
  lemma ChainsEnd(states: seq<Sys>, steps: seq<Step>, maxAttempts: int, n: nat, j: nat)
    requires IsRun(states, steps, maxAttempts) && n < |states| && NoCrash(steps) && NoPurge(steps)
    requires j < |states[n].jobs|
    ensures var s, job := states[n], states[n].jobs[j];
            && StepsOf(steps, j, n) <= 4 * (if maxAttempts > 1 then maxAttempts else 1)
            && (StepsOf(steps, j, n) == 4 * (if maxAttempts > 1 then maxAttempts else 1) ==> job.phase.Ended?)
            && (!job.phase.Ended? ==> exists a: Action :: Smooth(a) && Enabled(job, a))
            && job.event in s.tables.events
            && (job.phase.Ended? ==> s.tables.events[job.event].status in {Done, Dead})
  {
    StepsArePaidByRank(states, steps, maxAttempts, n, j);
    QueuedEventLives(states, steps, maxAttempts, n, j);
    WithoutCrashNothingIsLost(states, steps, maxAttempts, n);
    match states[n].jobs[j].phase
    case Idle => assert Enabled(states[n].jobs[j], DoBegin(true));
    case Posting(_) => assert Enabled(states[n].jobs[j], DoPost(NetworkError("")));
    case Replied(_, _) => assert Enabled(states[n].jobs[j], DoFinish);
    case Failing => assert Enabled(states[n].jobs[j], DoRetry);
    case Ended(_) =>
  }

  /******* Steps with crashes and redeliveries *******/

  /** Other steps leave an entry and its event's row alone; its own steps are paid for. */
  lemma StepIsPaid(s: Sys, step: Step, maxAttempts: int, j: nat, taken: nat)
    requires SysOk(s, maxAttempts) && CanStep(s, step) && j < |s.jobs|
    requires s.jobs[j].event in Next(s, step, maxAttempts).tables.events
    requires StepsPaid(RowOf(s.tables, s.jobs[j].event), s.jobs[j], taken)
    ensures var s' := Next(s, step, maxAttempts);
            var own := if step.Work? && step.j == j then 1 else 0;
            StepsPaid(RowOf(s'.tables, s.jobs[j].event), s'.jobs[j], taken + own)
  {
    var id := s.jobs[j].event;
    assert JobOk(s, j, maxAttempts);
    match step
    case Commit(c, other) =>
      if CommitEvent(s.tables, s.callers[c].key, other).Some? {
        assert BirthOk(s, id);
        CommitRows(s, c, other, CommitEvent(s.tables, s.callers[c].key, other).value);
      }
    case Work(k, a) =>
      WorkRows(s, k, a, maxAttempts);
      if k == j {
        ActIsPaid(RowOf(s.tables, id), s.jobs[j], a, maxAttempts, taken);
      } else {
        assert s.jobs[k].event != id;
      }
    case PurgeEvents(expired) => PurgeRows(s.tables, expired);
    case _ =>
  }

  lemma JobsStayPut(s: Sys, step: Step, maxAttempts: int)
    requires CanStep(s, step)
    ensures var jobs := Next(s, step, maxAttempts).jobs;
            |s.jobs| <= |jobs| && forall j :: 0 <= j < |s.jobs| ==> jobs[j].event == s.jobs[j].event
  {
    if step.Work? {
      ActKeepsShape(RowOf(s.tables, s.jobs[step.j].event), s.jobs[step.j], step.action, maxAttempts);
    }
  }

  lemma NewEntryIsPaid(s: Sys, step: Step, maxAttempts: int, j: nat)
    requires SysOk(s, maxAttempts) && CanStep(s, step) && |s.jobs| <= j < |Next(s, step, maxAttempts).jobs|
    ensures var s' := Next(s, step, maxAttempts);
            StepsPaid(RowOf(s'.tables, s'.jobs[j].event), s'.jobs[j], 0) && !(step.Work? && step.j == j)
  {
    NewEntryIsFresh(s, step, maxAttempts, j);
  }

  ghost predicate PaidAt(s: Sys, j: nat, taken: nat)
    requires j < |s.jobs|
  {
    s.jobs[j].event in s.tables.events ==> StepsPaid(RowOf(s.tables, s.jobs[j].event), s.jobs[j], taken)
  }

  lemma StepOfRunIsPaid(states: seq<Sys>, steps: seq<Step>, maxAttempts: int, n: nat, j: nat)
    requires IsRun(states, steps, maxAttempts) && n < |steps| && j < |states[n + 1].jobs|
    requires j < |states[n].jobs| ==> PaidAt(states[n], j, StepsOf(steps, j, n))
    requires j >= |states[n].jobs| ==> StepsOf(steps, j, n) == 0
    ensures PaidAt(states[n + 1], j, StepsOf(steps, j, n + 1))
  {
    var s, step := states[n], steps[n];
    assert CanStep(s, step) && states[n + 1] == Next(s, step, maxAttempts);
    RunKeeps(states, steps, maxAttempts, n);
    JobsStayPut(s, step, maxAttempts);
    if j >= |s.jobs| {
      NewEntryIsPaid(s, step, maxAttempts, j);
    } else if s.jobs[j].event in states[n + 1].tables.events {
      PresentBefore(s, step, maxAttempts, j);
      StepIsPaid(s, step, maxAttempts, j, StepsOf(steps, j, n));
    }
  }

  /** An entry's event that is there after a step was there before it. */
  lemma PresentBefore(s: Sys, step: Step, maxAttempts: int, j: nat)
    requires SysOk(s, maxAttempts) && CanStep(s, step) && j < |s.jobs|
    requires s.jobs[j].event in Next(s, step, maxAttempts).tables.events
    ensures s.jobs[j].event in s.tables.events
  {
    assert JobOk(s, j, maxAttempts) && BirthOk(s, s.jobs[j].event);
    if step.Work? {
      WorkRows(s, step.j, step.action, maxAttempts);
    }
  }

  lemma {:induction false} StepsArePaid(states: seq<Sys>, steps: seq<Step>, maxAttempts: int, n: nat, j: nat)
    requires IsRun(states, steps, maxAttempts) && n < |states| && j < |states[n].jobs|
    ensures PaidAt(states[n], j, StepsOf(steps, j, n))
  {
    assert n > 0;
    if j < |states[n - 1].jobs| {
      StepsArePaid(states, steps, maxAttempts, n - 1, j);
    } else {
      NoStepsBeforeQueued(states, steps, maxAttempts, n - 1, j);
    }
    StepOfRunIsPaid(states, steps, maxAttempts, n - 1, j);
  }

  /**
   Crashes, redeliveries and purges of other events included: the task of a live event has taken at most four steps
   for each allowed attempt, and at most five more for each crash and six for each redelivery, plus one.
   */
  lemma StepsAreBounded(states: seq<Sys>, steps: seq<Step>, maxAttempts: int, n: nat, j: nat)
    requires IsRun(states, steps, maxAttempts) && n < |states| && j < |states[n].jobs|
    requires states[n].jobs[j].event in states[n].tables.events
    ensures var job := states[n].jobs[j];
            StepsOf(steps, j, n)
            <= 4 * (if maxAttempts > 1 then maxAttempts else 1) + 5 * job.lost + 6 * job.reruns + 1
  {
    StepsArePaid(states, steps, maxAttempts, n, j);
    RunKeeps(states, steps, maxAttempts, n);
    assert JobOk(states[n], j, maxAttempts);
    PaidStepsAreBounded(RowOf(states[n].tables, states[n].jobs[j].event), states[n].jobs[j], maxAttempts,
                        StepsOf(steps, j, n));
  }

  /******* What an outcome says about the reply *******/

  /**
   Over every run: the outcome of an attempt on a live event follows from the code the destination gave.  The event is
   done exactly when it was from 200 to 299; otherwise it is failed while attempts are left, and dead with the last
   one, once.  The log row keeps the attempt and the code.
   */
  lemma OutcomeFollowsReply(states: seq<Sys>, steps: seq<Step>, maxAttempts: int, n: nat, j: nat)
    requires IsRun(states, steps, maxAttempts) && n < |steps| && steps[n] == Work(j, DoFinish)
    requires states[n].jobs[j].event in states[n].tables.events
    ensures var job, t, t' := states[n].jobs[j], states[n].tables, states[n + 1].tables;
            job.posts != [] && job.event in t'.events &&
            var reply, event, event' := job.posts[|job.posts| - 1], t.events[job.event], t'.events[job.event];
            var delivered := reply.Answer? && 200 <= reply.code < 300;
            && (event'.status == Done <==> delivered)
            && (event'.status == Failed <==> !delivered && event.attempts < maxAttempts)
            && (event'.status == Dead <==> !delivered && event.attempts >= maxAttempts && job.event !in t.dead)
            && (if event'.status in {Done, Failed, Dead} then
                  var logs, logs' := RowOf(t, job.event).logs, RowOf(t', job.event).logs;
                  && |logs'| == |logs| + 1 && logs'[..|logs|] == logs
                  && logs'[|logs|].attemptNo == event.attempts
                  && logs'[|logs|].httpStatus == (if reply.Answer? then Some(reply.code) else None)
                else t' == t)
  {
    var s := states[n];
    RunKeeps(states, steps, maxAttempts, n);
    assert JobOk(s, j, maxAttempts);
    assert CanStep(s, steps[n]) && states[n + 1] == Next(s, steps[n], maxAttempts);
    WorkRows(s, j, DoFinish, maxAttempts);
    FinishReports(RowOf(s.tables, s.jobs[j].event), s.jobs[j].phase.attemptNo, s.jobs[j].phase.reply, maxAttempts);
    if states[n + 1].tables.events[s.jobs[j].event].status == Processing {
      SameRowSameTables(s.tables, s.jobs[j].event);
    }
  }

  lemma SameRowSameTables(t: Tables, id: Id)
    requires id in t.events
    ensures WithRow(t, id, RowOf(t, id)) == t
  {
    assert t.events[id := t.events[id]] == t.events;
    if id in t.dead {
      assert t.dead[id := t.dead[id]] == t.dead;
    }
  }
}
