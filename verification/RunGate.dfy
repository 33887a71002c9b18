/**
 The pipeline-run gate (btx_platform/pipeline.py).

 A start is admitted by looking at the 20 newest rows of the tenant.  The theorems say that,
 when check and insert are one step, this window decides as the whole table would, that at
 most one run per tenant is in progress, and that starts keep their distance; and they say
 what is lost when check and insert are not one step, or when the process dies mid-run.
 */
module RunGate {

  datatype Status = Queued | Running | Completed | Dispatched | Failed
  datatype Mechanism = Subprocess | Github | Unknown
  datatype Run = Run(tenant: string, triggeredAt: int, mechanism: Mechanism, status: Status, completedAt: int)

  datatype GateReply = Admitted | InProgress | TooSoon
  datatype Reply = Started(id: nat) | RateLimited(why: GateReply) | ConfigError

  /** What the subprocess or the dispatch call did. */
  datatype Outcome = Success | Raised

  const RECENT_LIMIT := 20

  predicate InFlight(status: Status) { status == Queued || status == Running }

  /** The rows of one tenant, as indices into the table in insertion order. */
  function TenantRows(runs: seq<Run>, tenant: string): set<nat> {
    set i: nat | i < |runs| && runs[i].tenant == tenant
  }

  /**
   An answer the database may give for "the tenant's rows by trigger time descending, at most
   20": distinct rows of the tenant, in order, and none left out unless 20 at least as new
   were taken.  Rows triggered at the same time may come in any order.
   */
  ghost predicate IsRecent(runs: seq<Run>, tenant: string, recent: seq<nat>) {
    && |recent| <= RECENT_LIMIT
    && (forall k :: 0 <= k < |recent| ==> recent[k] in TenantRows(runs, tenant))
    && (forall j, k :: 0 <= j < k < |recent| ==> recent[j] != recent[k])
    && (forall j, k :: 0 <= j < k < |recent| ==> runs[recent[j]].triggeredAt >= runs[recent[k]].triggeredAt)
    && (forall i :: i in TenantRows(runs, tenant) && i !in recent ==>
          |recent| == RECENT_LIMIT && forall k :: 0 <= k < |recent| ==>
              runs[recent[k]].triggeredAt >= runs[i].triggeredAt)
  }

  /** The gate over the rows it was given, newest first. */
  function CanStart(runs: seq<Run>, recent: seq<nat>, now: int, minInterval: int): GateReply
    requires forall k :: 0 <= k < |recent| ==> recent[k] < |runs|
  {
    if exists k :: 0 <= k < |recent| && InFlight(runs[recent[k]].status) then InProgress
    else if recent != [] && now - runs[recent[0]].triggeredAt < minInterval then TooSoon
    else Admitted
  }

  /** The gate that looks at every row the tenant ever had. */
  ghost function CanStartFullTable(runs: seq<Run>, tenant: string, now: int, minInterval: int): GateReply {
    if exists i :: i in TenantRows(runs, tenant) && InFlight(runs[i].status) then InProgress
    else if exists i :: i in TenantRows(runs, tenant) && now - runs[i].triggeredAt < minInterval then TooSoon
    else Admitted
  }

  function NewRun(tenant: string, now: int, mechanism: Mechanism): Run {
    Run(tenant, now, mechanism, if mechanism == Subprocess then Running else Queued, -1)
  }

  function FinishedRun(run: Run, outcome: Outcome, now: int): Run {
    run.(status := if outcome == Raised then Failed else if run.mechanism == Subprocess then Completed else Dispatched,
         completedAt := now)
  }

  /** The table a trigger request leaves once its row is committed, and what it answers so far. */
  function TriggerStep(runs: seq<Run>, recent: seq<nat>, tenant: string, mechanism: Mechanism, exportOk: bool,
                       checkedAt: int, insertedAt: int, minInterval: int): (r: (seq<Run>, Reply))
    requires forall k :: 0 <= k < |recent| ==> recent[k] < |runs|
  {
    var gate := CanStart(runs, recent, checkedAt, minInterval);
    if gate != Admitted then (runs, RateLimited(gate))
    else if mechanism == Unknown || !exportOk then (runs, ConfigError)
    else (runs + [NewRun(tenant, insertedAt, mechanism)], Started(|runs|))
  }

  class RunTable {
    var runs: seq<Run>
    const minInterval: int

    constructor (minInterval: int)
      ensures runs == [] && this.minInterval == minInterval
    {
      runs := [];
      this.minInterval := minInterval;
    }

    /** Reads only; `recent` is the database's answer. */
    method AssertCanStart(ghost tenant: string, recent: seq<nat>, now: int) returns (gate: GateReply)
      requires IsRecent(runs, tenant, recent)
      ensures gate == CanStart(runs, recent, now, minInterval)
      ensures gate == Admitted ==> forall k :: 0 <= k < |recent| ==> !InFlight(runs[recent[k]].status)
    {
      for k := 0 to |recent|
        invariant forall j :: 0 <= j < k ==> !InFlight(runs[recent[j]].status)
      {
        if InFlight(runs[recent[k]].status) {
          return InProgress;
        }
      }
      if recent != [] && now - runs[recent[0]].triggeredAt < minInterval {
        return TooSoon;
      }
      return Admitted;
    }

    /**
     One whole request.  `outcome` is what the subprocess or dispatch call does; the row is
     committed before that call and again after it.
     */
    method TriggerPipeline(tenant: string, mechanism: Mechanism, exportOk: bool, recent: seq<nat>,
                           checkedAt: int, insertedAt: int, outcome: Outcome, finishedAt: int) returns (reply: Reply)
      requires IsRecent(runs, tenant, recent)
      modifies this
      ensures var (inserted, r) :=
          TriggerStep(old(runs), recent, tenant, mechanism, exportOk, checkedAt, insertedAt, minInterval);
              && reply == r
              && (!reply.Started? ==> runs == old(runs))
              && (reply.Started? ==>
                    && reply.id == |old(runs)| < |inserted|
                    && runs == inserted[reply.id := FinishedRun(inserted[reply.id], outcome, finishedAt)]
                    && !InFlight(runs[reply.id].status))
      ensures reply.Started? ==>
                && mechanism != Unknown && exportOk && reply.id == |old(runs)| && |runs| == |old(runs)| + 1
                && runs[..reply.id] == old(runs)
                && (runs[reply.id].status == Failed <==> outcome == Raised)
                && (runs[reply.id].status == Completed <==> outcome == Success && mechanism == Subprocess)
                && (runs[reply.id].status == Dispatched <==> outcome == Success && mechanism == Github)
                && runs[reply.id].tenant == tenant && runs[reply.id].mechanism == mechanism
                && runs[reply.id].triggeredAt == insertedAt && runs[reply.id].completedAt == finishedAt
      ensures reply == ConfigError ==> (mechanism == Unknown || !exportOk) && runs == old(runs)
      ensures reply.RateLimited? <==>
                || (exists k :: 0 <= k < |recent| && old(runs)[recent[k]].status in {Queued, Running})
                || (recent != [] && checkedAt - old(runs)[recent[0]].triggeredAt < minInterval)
    {
      var gate := AssertCanStart(tenant, recent, checkedAt);
      if gate != Admitted {
        return RateLimited(gate);
      }
      if mechanism == Unknown || !exportOk {
        return ConfigError;
      }
      var id := |runs|;
      runs := runs + [NewRun(tenant, insertedAt, mechanism)];
      var run := runs[id];
      match outcome {
        case Success =>
          run := run.(status := if mechanism == Subprocess then Completed else Dispatched, completedAt := finishedAt);
        case Raised =>
          run := run.(status := Failed, completedAt := finishedAt);
      }
      runs := runs[id := run];
      return Started(id);
    }
  }

  /******* Runs of the gate *******/

  /** Requests of many processes: a trigger commits its row, and later its process finishes it or dies. */
  datatype Step =
    | Trigger(tenant: string, mechanism: Mechanism, exportOk: bool, recent: seq<nat>, checkedAt: int, insertedAt: int)
    | Finish(id: nat, outcome: Outcome, now: int)

  ghost predicate Enabled(runs: seq<Run>, s: Step) {
    match s
    case Trigger(tenant, _, _, recent, checkedAt, insertedAt) => IsRecent(runs, tenant, recent)
        && checkedAt <= insertedAt
    case Finish(id, _, _) => id < |runs| && InFlight(runs[id].status)
  }

  ghost function Next(runs: seq<Run>, s: Step, minInterval: int): seq<Run>
    requires Enabled(runs, s)
  {
    match s
    case Trigger(tenant, mechanism, exportOk, recent, checkedAt, insertedAt) =>
      TriggerStep(runs, recent, tenant, mechanism, exportOk, checkedAt, insertedAt, minInterval).0
    case Finish(id, outcome, now) => runs[id := FinishedRun(runs[id], outcome, now)]
  }

  /** The tables a sequence of steps goes through, from the empty one. */
  ghost predicate IsRun(states: seq<seq<Run>>, steps: seq<Step>, minInterval: int) {
    && |states| == |steps| + 1
    && states[0] == []
    && forall i :: 0 <= i < |steps| ==>
         Enabled(states[i], steps[i]) && states[i + 1] == Next(states[i], steps[i], minInterval)
  }

  /** Earlier rows of a tenant are settled and at least the interval older: only the newest may be in flight. */
  ghost predicate Spaced(runs: seq<Run>, minInterval: int) {
    forall i, j :: 0 <= i < j < |runs| && runs[i].tenant == runs[j].tenant ==>
      !InFlight(runs[i].status) && runs[j].triggeredAt - runs[i].triggeredAt >= minInterval
  }

  /** The first row of the window is the tenant's last inserted row. */
  lemma NewestIsFirst(runs: seq<Run>, tenant: string, recent: seq<nat>, minInterval: int)
    requires minInterval > 0 && Spaced(runs, minInterval) && IsRecent(runs, tenant, recent) && recent != []
    ensures forall i :: i in TenantRows(runs, tenant) ==>
        i <= recent[0] && runs[i].triggeredAt <= runs[recent[0]].triggeredAt
  {
    forall i | i in TenantRows(runs, tenant)
      ensures runs[i].triggeredAt <= runs[recent[0]].triggeredAt
      ensures i <= recent[0]
    {
      if i in recent {
        var k :| 0 <= k < |recent| && recent[k] == i;
      }
      assert recent[0] in TenantRows(runs, tenant);
    }
  }

  /** In a well-spaced table the 20-row window decides as the whole table would. */
  lemma WindowDecidesAsFullTable(runs: seq<Run>, tenant: string, recent: seq<nat>, now: int, minInterval: int)
    requires minInterval > 0 && Spaced(runs, minInterval) && IsRecent(runs, tenant, recent)
    ensures CanStart(runs, recent, now, minInterval) == CanStartFullTable(runs, tenant, now, minInterval)
  {
    var rows := TenantRows(runs, tenant);
    if recent == [] {
      assert forall i :: i in rows ==> i !in recent;
    } else {
      NewestIsFirst(runs, tenant, recent, minInterval);
      assert recent[0] in rows;
      forall i | i in rows && InFlight(runs[i].status)
        ensures i == recent[0]
      {
      }
    }
  }

  /** An insert keeps the table well spaced exactly when the whole-table gate admits it at that moment. */
  lemma InsertKeepsSpacedIffAdmitted(runs: seq<Run>, tenant: string, mechanism: Mechanism, now: int, minInterval: int)
    ensures Spaced(runs + [NewRun(tenant, now, mechanism)], minInterval)
            <==> Spaced(runs, minInterval) && CanStartFullTable(runs, tenant, now, minInterval) == Admitted
  {
    var after := runs + [NewRun(tenant, now, mechanism)];
    assert forall i :: 0 <= i < |runs| ==> after[i] == runs[i];
    assert forall i :: i in TenantRows(runs, tenant) <==> 0 <= i < |runs| && after[i].tenant == after[|runs|].tenant;
    if Spaced(after, minInterval) {
      forall i, j | 0 <= i < j < |runs| && runs[i].tenant == runs[j].tenant
        ensures !InFlight(runs[i].status) && runs[j].triggeredAt - runs[i].triggeredAt >= minInterval
      {
        assert after[i].tenant == after[j].tenant;
      }
    }
  }

  lemma NextKeepsSpaced(runs: seq<Run>, s: Step, minInterval: int)
    requires minInterval > 0 && Spaced(runs, minInterval) && Enabled(runs, s)
    ensures Spaced(Next(runs, s, minInterval), minInterval)
  {
    if s.Trigger? {
      WindowDecidesAsFullTable(runs, s.tenant, s.recent, s.checkedAt, minInterval);
      InsertKeepsSpacedIffAdmitted(runs, s.tenant, s.mechanism, s.insertedAt, minInterval);
    }
  }

  /** In every run and at every moment, each tenant's runs are spaced and only its newest may be in progress. */
  lemma {:induction false} GateHolds(states: seq<seq<Run>>, steps: seq<Step>, minInterval: int, n: nat)
    requires minInterval > 0 && IsRun(states, steps, minInterval) && n < |states|
    ensures Spaced(states[n], minInterval)
  {
    if n > 0 {
      GateHolds(states, steps, minInterval, n - 1);
      NextKeepsSpaced(states[n - 1], steps[n - 1], minInterval);
    }
  }

  /**
   At every moment of every run a request is refused as "in progress" exactly when some run of the
   tenant was started and not finished, and as "too soon" exactly when none is and some run of the
   tenant, however many rows ago, started less than the interval ago.
   */
  lemma EveryDecisionIsTheFullTables(states: seq<seq<Run>>, steps: seq<Step>, minInterval: int, n: nat,
                                     tenant: string, recent: seq<nat>, now: int)
    requires minInterval > 0 && IsRun(states, steps, minInterval) && n < |states|
    requires IsRecent(states[n], tenant, recent)
    ensures CanStart(states[n], recent, now, minInterval) == CanStartFullTable(states[n], tenant, now, minInterval)
  {
    GateHolds(states, steps, minInterval, n);
    WindowDecidesAsFullTable(states[n], tenant, recent, now, minInterval);
  }

  /** The step is the finish of the row, and how it went. */
  predicate FinishesAs(s: Step, id: nat, outcome: Outcome) { s.Finish? && s.id == id && s.outcome == outcome }

  /** Some of the first n steps finished the row with this outcome. */
  ghost predicate FinishedWith(steps: seq<Step>, n: nat, id: nat, outcome: Outcome)
    requires n <= |steps|
  {
    exists i :: 0 <= i < n && FinishesAs(steps[i], id, outcome)
  }

  /** What a row's status is, given how it was finished so far. */
  ghost predicate StatusTold(run: Run, raised: bool, succeeded: bool) {
    && run.mechanism != Unknown
    && (run.status == Failed <==> raised)
    && (run.status == Completed <==> succeeded && run.mechanism == Subprocess)
    && (run.status == Dispatched <==> succeeded && run.mechanism == Github)
    && (run.status == Running ==> run.mechanism == Subprocess)
    && (run.status == Queued ==> run.mechanism == Github)
    && !(raised && succeeded)
  }

  lemma FinishedNext(steps: seq<Step>, n: nat, id: nat, outcome: Outcome)
    requires n < |steps|
    ensures FinishedWith(steps, n + 1, id, outcome)
        <==> FinishedWith(steps, n, id, outcome) || FinishesAs(steps[n], id, outcome)
  {
  }

  lemma NextTells(runs: seq<Run>, s: Step, minInterval: int, id: nat, raised: bool, succeeded: bool)
    requires Enabled(runs, s) && id < |Next(runs, s, minInterval)|
    requires if id < |runs| then StatusTold(runs[id], raised, succeeded) else !raised && !succeeded
    ensures StatusTold(Next(runs, s, minInterval)[id], raised || FinishesAs(s, id, Raised), succeeded
                       || FinishesAs(s, id, Success))
  {
  }

  lemma {:induction false} NotFinishedBeforeInsert(states: seq<seq<Run>>, steps: seq<Step>, minInterval: int, n: nat,
                                                   id: nat)
    requires IsRun(states, steps, minInterval) && n < |states| && |states[n]| <= id
    ensures !FinishedWith(steps, n, id, Raised) && !FinishedWith(steps, n, id, Success)
  {
    if n > 0 {
      assert Enabled(states[n - 1], steps[n - 1]) && |states[n - 1]| <= |states[n]|;
      NotFinishedBeforeInsert(states, steps, minInterval, n - 1, id);
    }
  }

  /**
   Over every run: a row is failed exactly when its process finished by raising, completed exactly when a subprocess
   finished, dispatched exactly when a GitHub run was dispatched, and in flight exactly until then.
   */
  lemma {:induction false} StatusTellsOutcome(states: seq<seq<Run>>, steps: seq<Step>, minInterval: int, n: nat,
                                              id: nat)
    requires IsRun(states, steps, minInterval) && n < |states| && id < |states[n]|
    ensures StatusTold(states[n][id], FinishedWith(steps, n, id, Raised), FinishedWith(steps, n, id, Success))
    ensures InFlight(states[n][id].status)
        <==> !FinishedWith(steps, n, id, Raised) && !FinishedWith(steps, n, id, Success)
  {
    assert n > 0;
    if id < |states[n - 1]| {
      StatusTellsOutcome(states, steps, minInterval, n - 1, id);
    } else {
      NotFinishedBeforeInsert(states, steps, minInterval, n - 1, id);
    }
    FinishedNext(steps, n - 1, id, Raised);
    FinishedNext(steps, n - 1, id, Success);
    NextTells(states[n - 1], steps[n - 1], minInterval, id, FinishedWith(steps, n - 1, id, Raised),
              FinishedWith(steps, n - 1, id, Success));
  }

  /** While a run is in flight no other row of its tenant is added, and only its own finish touches it. */
  lemma InFlightBlocks(runs: seq<Run>, s: Step, minInterval: int, id: nat)
    requires minInterval > 0 && Spaced(runs, minInterval) && Enabled(runs, s)
    requires id < |runs| && InFlight(runs[id].status) && (s.Finish? ==> s.id != id)
    ensures var after := Next(runs, s, minInterval);
            && id < |after| && after[id] == runs[id]
            && TenantRows(after, runs[id].tenant) == TenantRows(runs, runs[id].tenant)
  {
    if s.Trigger? && s.tenant == runs[id].tenant {
      assert id in TenantRows(runs, s.tenant);
      WindowDecidesAsFullTable(runs, s.tenant, s.recent, s.checkedAt, minInterval);
    }
  }

  /**
   A run whose process died is never finished, and from then on no request of its tenant is ever
   admitted: the row stays in flight and the tenant's rows stay the same.
   */
  lemma {:induction false} DeadProcessBlocksTenant(states: seq<seq<Run>>, steps: seq<Step>, minInterval: int, m: nat,
                                                   n: nat, id: nat)
    requires minInterval > 0 && IsRun(states, steps, minInterval) && m <= n < |states|
    requires id < |states[m]| && InFlight(states[m][id].status)
    requires forall i :: m <= i < n && steps[i].Finish? ==> steps[i].id != id
    ensures id < |states[n]| && states[n][id] == states[m][id]
    ensures TenantRows(states[n], states[m][id].tenant) == TenantRows(states[m], states[m][id].tenant)
  {
    if m < n {
      DeadProcessBlocksTenant(states, steps, minInterval, m, n - 1, id);
      GateHolds(states, steps, minInterval, n - 1);
      InFlightBlocks(states[n - 1], steps[n - 1], minInterval, id);
    }
  }

  /******* Check and insert as two steps *******/

  /** In the source a request checks the gate, exports its configuration, and only then inserts its row. */
  datatype RaceStep =
    | Check(tenant: string, mechanism: Mechanism, recent: seq<nat>, now: int)
    | Insert(c: nat, now: int)
    | Complete(id: nat, outcome: Outcome, now: int)

  /** A request that passed the gate and has not inserted its row yet. */
  datatype Ticket = Ticket(tenant: string, mechanism: Mechanism)
  datatype Race = Race(runs: seq<Run>, admitted: seq<Ticket>)

  ghost predicate CanRace(r: Race, s: RaceStep) {
    match s
    case Check(tenant, _, recent, _) => IsRecent(r.runs, tenant, recent)
    case Insert(c, _) => c < |r.admitted|
    case Complete(id, _, _) => id < |r.runs| && InFlight(r.runs[id].status)
  }

  ghost function RaceNext(r: Race, s: RaceStep, minInterval: int): Race
    requires CanRace(r, s)
  {
    match s
    case Check(tenant, mechanism, recent, now) =>
      if CanStart(r.runs, recent, now, minInterval) != Admitted then r
      else r.(admitted := r.admitted + [Ticket(tenant, mechanism)])
    case Insert(c, now) =>
      Race(r.runs + [NewRun(r.admitted[c].tenant, now, r.admitted[c].mechanism)], r.admitted[..c] + r.admitted[c + 1..])
    case Complete(id, outcome, now) => r.(runs := r.runs[id := FinishedRun(r.runs[id], outcome, now)])
  }

  ghost predicate IsRace(races: seq<Race>, steps: seq<RaceStep>, minInterval: int) {
    && |races| == |steps| + 1
    && races[0] == Race([], [])
    && forall i :: 0 <= i < |steps| ==>
        CanRace(races[i], steps[i]) && races[i + 1] == RaceNext(races[i], steps[i], minInterval)
  }

  /** The gate would still admit the request at the moment its row is inserted. */
  ghost predicate StillAdmitted(r: Race, s: RaceStep, minInterval: int)
    requires CanRace(r, s)
  {
    s.Insert? ==> CanStartFullTable(r.runs, r.admitted[s.c].tenant, s.now, minInterval) == Admitted
  }

  lemma RaceKeepsSpacedExactlyWhen(r: Race, s: RaceStep, minInterval: int)
    requires CanRace(r, s) && Spaced(r.runs, minInterval)
    ensures Spaced(RaceNext(r, s, minInterval).runs, minInterval) <==> StillAdmitted(r, s, minInterval)
  {
    if s.Insert? {
      InsertKeepsSpacedIffAdmitted(r.runs, r.admitted[s.c].tenant, r.admitted[s.c].mechanism, s.now, minInterval);
    }
  }

  ghost predicate AllSpaced(races: seq<Race>, minInterval: int, n: nat)
    requires n < |races|
  {
    forall m :: 0 <= m <= n ==> Spaced(races[m].runs, minInterval)
  }

  ghost predicate AllStillAdmitted(races: seq<Race>, steps: seq<RaceStep>, minInterval: int, n: nat)
    requires IsRace(races, steps, minInterval) && n <= |steps|
  {
    forall m :: 0 <= m < n ==> StillAdmitted(races[m], steps[m], minInterval)
  }

  /**
   However checks, inserts and completions of any number of requests interleave: the tables so far are all well spaced
   exactly when the gate would have admitted each inserted row at the moment of its insert.
   */
  lemma {:induction false} RacesAreSpacedExactlyWhen(races: seq<Race>, steps: seq<RaceStep>, minInterval: int, n: nat)
    requires IsRace(races, steps, minInterval) && n <= |steps|
    ensures AllSpaced(races, minInterval, n) <==> AllStillAdmitted(races, steps, minInterval, n)
  {
    if n > 0 {
      RacesAreSpacedExactlyWhen(races, steps, minInterval, n - 1);
      assert AllSpaced(races, minInterval, n)
          <==> AllSpaced(races, minInterval, n - 1) && Spaced(races[n].runs, minInterval);
      assert AllStillAdmitted(races, steps, minInterval, n)
          <==> AllStillAdmitted(races, steps, minInterval, n - 1)
               && StillAdmitted(races[n - 1], steps[n - 1], minInterval);
      if Spaced(races[n - 1].runs, minInterval) {
        RaceKeepsSpacedExactlyWhen(races[n - 1], steps[n - 1], minInterval);
      }
    }
  }

  /**
   Whenever a second request of the tenant is checked before the first one's row is committed, both are admitted
   and the spacing is lost.
   */
  lemma RaceAdmitsTwo(runs: seq<Run>, recent: seq<nat>, tenant: string, mechanism: Mechanism, now: int, later: int,
                      minInterval: int)
    requires minInterval > 0 && Spaced(runs, minInterval) && IsRecent(runs, tenant, recent) && now <= later
    requires CanStart(runs, recent, now, minInterval) == Admitted
    ensures CanStart(runs, recent, later, minInterval) == Admitted
    ensures !Spaced(runs + [NewRun(tenant, now, mechanism)] + [NewRun(tenant, later, mechanism)], minInterval)
  {
    var first := runs + [NewRun(tenant, now, mechanism)];
    assert |runs| in TenantRows(first, tenant) && first[|runs|] == NewRun(tenant, now, mechanism);
    InsertKeepsSpacedIffAdmitted(first, tenant, mechanism, later, minInterval);
  }
}
