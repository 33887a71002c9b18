/**
 The webhook delivery protocol (btx_platform/ingest.py, queue.py, retention.py, workers/forward.py).

 `Platform` is the sequential code.  The module DeliveryRuns has any number of ingest calls, workers and purges
 whose steps interleave at the commit points; both are built from the functions on the tables here.
 */
module Delivery {
  import opened Common
  import opened Forward

  type Id = nat

  /** The events, idempotency_keys, outbound_log and dead_letters tables; the last two indexed by event. */
  datatype Tables = Tables(events: map<Id, Event>, keys: map<string, Id>, logs: map<Id, seq<LogRow>>,
                           dead: map<Id, ErrorText>)

  function RowOf(t: Tables, id: Id): Row {
    Row(if id in t.events then Some(t.events[id]) else None,
        if id in t.logs then t.logs[id] else [],
        if id in t.dead then Some(t.dead[id]) else None)
  }

  /** Writes back what a forward changed. */
  function WithRow(t: Tables, id: Id, row: Row): Tables {
    t.(events := if row.event.Some? then t.events[id := row.event.value] else t.events,
       logs := if row.logs == RowOf(t, id).logs then t.logs else t.logs[id := row.logs],
       dead := if row.deadLetter.Some? then t.dead[id := row.deadLetter.value] else t.dead)
  }

  /** Every key row points at a live event that carries the key, and every event with a key owns its key row. */
  ghost predicate KeysOk(t: Tables) {
    && (forall k :: k in t.keys ==> k != "" && t.keys[k] in t.events && t.events[t.keys[k]].key == k)
    && (forall id :: id in t.events && t.events[id].key != "" ==>
        t.events[id].key in t.keys && t.keys[t.events[id].key] == id)
  }

  /******* Ingest *******/

  datatype RequestBody = NotJson | BadEnvelope | Envelope(idempotencyKey: Option<string>, externalId: Option<string>)
  datatype Request = Request(active: bool, hasSecret: bool, signatureOk: bool, body: RequestBody,
                             headerKey: Option<string>)
  datatype Outcome = Accepted(id: Id) | Duplicate(id: Id) | Rejected(httpStatus: int)

  predicate Truthy(s: Option<string>) { s.Some? && s.value != "" }

  /** Header, then envelope key, then external id; no key is the empty string. */
  function ResolveIdempotencyKey(body: RequestBody, headerKey: Option<string>): string
    requires body.Envelope?
  {
    if Truthy(headerKey) then headerKey.value
    else if Truthy(body.idempotencyKey) then body.idempotencyKey.value
    else if body.externalId.Some? then body.externalId.value
    else ""
  }

  /** Authentication and validation, before the database is looked at. */
  function Screen(r: Request): Option<int> {
    if !r.active then Some(403)
    else if r.hasSecret && !r.signatureOk then Some(401)
    else match r.body
         case NotJson => Some(400)
         case BadEnvelope => Some(422)
         case Envelope(_, _) => None
  }

  function ReadKey(t: Tables, key: string): Option<Id> {
    if key != "" && key in t.keys then Some(t.keys[key]) else None
  }

  /** Event and key row in one transaction; None is the integrity error, with nothing written. */
  function CommitEvent(t: Tables, key: string, id: Id): Option<Tables> {
    if id in t.events || (key != "" && key in t.keys) then None
    else Some(t.(events := t.events[id := Event(key, Received, 0, None)],
                 keys := if key == "" then t.keys else t.keys[key := id]))
  }

  /** What a call answers after its commit was refused. */
  function Reread(t: Tables, key: string): Outcome {
    if ReadKey(t, key).Some? then Duplicate(ReadKey(t, key).value) else Rejected(409)
  }

  /** Deletes key rows, logs and dead letters of the expired events, and the events. */
  function Purge(t: Tables, expired: set<Id>): Tables {
    Tables(t.events - expired,
           map k | k in t.keys && t.keys[k] !in expired :: t.keys[k],
           t.logs - expired,
           t.dead - expired)
  }

  /** The sequential code over its tables and its queue. */
  class Platform {
    var events: map<Id, Event>
    var keys: map<string, Id>
    var logs: map<Id, seq<LogRow>>
    var dead: map<Id, ErrorText>
    var jobs: seq<Id>

    constructor ()
      ensures State() == Tables(map[], map[], map[], map[]) && jobs == []
    {
      events, keys, logs, dead, jobs := map[], map[], map[], map[], [];
    }

    function State(): Tables
      reads this
    {
      Tables(events, keys, logs, dead)
    }

    method EnqueueForward(id: Id)
      modifies this`jobs
      ensures jobs == old(jobs) + [id]
    {
      jobs := jobs + [id];
    }

    /** Steps 3 to 5 of an ingest call that runs alone.  `id` is the new event's id. */
    method Ingest(r: Request, id: Id) returns (outcome: Outcome)
      modifies this
      ensures Screen(r).Some? ==> outcome == Rejected(Screen(r).value) && State() == old(State()) && jobs == old(jobs)
      ensures Screen(r).None? ==>
                var key := ResolveIdempotencyKey(r.body, r.headerKey);
                var committed := CommitEvent(old(State()), key, id);
                if ReadKey(old(State()), key).Some? then
                  outcome == Duplicate(ReadKey(old(State()), key).value) && State() == old(State()) && jobs == old(jobs)
                else if committed.Some? then
                  outcome == Accepted(id) && State() == committed.value && jobs == old(jobs) + [id]
                else
                  outcome == Rejected(409) && State() == old(State()) && jobs == old(jobs)
      ensures old(KeysOk(State())) ==> KeysOk(State())
      ensures !r.active ==> outcome == Rejected(403)
      ensures r.active && r.hasSecret && !r.signatureOk ==> outcome == Rejected(401)
      ensures r.active && (r.hasSecret ==> r.signatureOk) ==>
                && (r.body.NotJson? ==> outcome == Rejected(400))
                && (r.body.BadEnvelope? ==> outcome == Rejected(422))
                && (r.body.Envelope? && id !in old(events) ==>
                      || outcome.Duplicate?
                      || (outcome == Accepted(id) && jobs == old(jobs) + [id] && id in events
                          && events == old(events)[id := Event(events[id].key, Received, 0, None)]
                          && logs == old(logs) && dead == old(dead)))
    {
      if !r.active {
        return Rejected(403);
      }
      if r.hasSecret && !r.signatureOk {
        return Rejected(401);
      }
      if r.body.NotJson? {
        return Rejected(400);
      }
      if r.body.BadEnvelope? {
        return Rejected(422);
      }
      var key := ResolveIdempotencyKey(r.body, r.headerKey);
      if key != "" && key in keys {
        return Duplicate(keys[key]);
      }
      var committed := InsertEvent(key, id);
      if !committed {
        outcome := AnswerConflict(key);
        return;
      }
      EnqueueForward(id);
      return Accepted(id);
    }

    /** After an integrity error the key is read again: a concurrent call may have taken it. */
    method AnswerConflict(key: string) returns (outcome: Outcome)
      ensures outcome == Reread(State(), key)
    {
      if key != "" && key in keys {
        return Duplicate(keys[key]);
      }
      return Rejected(409);
    }

    /** The transaction of step 4: both rows, or after an integrity error neither. */
    method InsertEvent(key: string, id: Id) returns (committed: bool)
      modifies this`events, this`keys
      ensures committed == CommitEvent(old(State()), key, id).Some?
      ensures State() == if committed then CommitEvent(old(State()), key, id).value else old(State())
    {
      var eventsBefore, keysBefore := events, keys;
      var conflict := id in events;
      events := events[id := Event(key, Received, 0, None)];
      if key != "" {
        conflict := conflict || key in keys;
        keys := keys[key := id];
      }
      if conflict {
        events, keys := eventsBefore, keysBefore;
        return false;
      }
      return true;
    }

    /** One forward: the attempt is committed, the post answered with `reply`, the outcome committed. */
    method ForwardEventSync(id: Id, hasDestination: bool, reply: Reply, maxAttempts: int)
        returns (outcome: Option<Forward.Outcome>)
      modifies this
      ensures var begun := Begin(RowOf(old(State()), id), hasDestination);
              match begun
              case EventMissing => outcome == Some(OutFailed) && State() == old(State())
              case NothingToSend(row) => outcome == Some(OutDone) && State() == WithRow(old(State()), id, row)
              case Attempting(row, n) =>
                match Finish(row, n, reply, maxAttempts)
                case Refused => outcome == None && State() == WithRow(old(State()), id, row)
                case Committed(row', out) => outcome == Some(out) && RowOf(State(), id) == row'
      ensures forall other :: other != id ==> RowOf(State(), other) == RowOf(old(State()), other)
      ensures keys == old(keys) && jobs == old(jobs)
      ensures id in old(events) && hasDestination ==>
                && id in events && events[id].key == old(events)[id].key
                && Reports(RowOf(old(State()), id), RowOf(State(), id), old(events)[id].attempts
                           + 1, reply, maxAttempts, outcome)
    {
      if id !in events {
        return Some(OutFailed);
      }
      if !hasDestination {
        events := events[id := events[id].(status := Done)];
        return Some(OutDone);
      }
      events := events[id := events[id].(attempts := events[id].attempts + 1)];
      var attemptNo := events[id].attempts;
      events := events[id := events[id].(status := Processing)];
      FinishReports(RowOf(State(), id), attemptNo, reply, maxAttempts);
      outcome := FinishForward(id, attemptNo, reply, maxAttempts);
    }

    /** The second transaction of a forward; with a dead letter already there it cannot be committed. */
    method FinishForward(id: Id, attemptNo: nat, reply: Reply, maxAttempts: int)
        returns (outcome: Option<Forward.Outcome>)
      requires id in events
      modifies this`events, this`logs, this`dead
      ensures match Finish(RowOf(old(State()), id), attemptNo, reply, maxAttempts)
              case Refused => outcome == None && State() == old(State())
              case Committed(row', out) => outcome == Some(out) && RowOf(State(), id) == row'
      ensures forall other :: other != id ==> RowOf(State(), other) == RowOf(old(State()), other)
      ensures keys == old(keys) && jobs == old(jobs)
    {
      var log := if id in logs then logs[id] else [];
      if IsOk(reply) {
        logs := logs[id := log + [LogOf(attemptNo, reply)]];
        events := events[id := events[id].(status := Done, error := None)];
        return Some(OutDone);
      }
      if attemptNo >= maxAttempts {
        if id in dead {
          return None;
        }
        logs := logs[id := log + [LogOf(attemptNo, reply)]];
        events := events[id := events[id].(error := Some(ErrorOf(reply)), status := Dead)];
        dead := dead[id := ErrorOf(reply)];
        return Some(OutDead);
      }
      logs := logs[id := log + [LogOf(attemptNo, reply)]];
      events := events[id := events[id].(error := Some(ErrorOf(reply)), status := Failed)];
      return Some(OutFailed);
    }

    /** The event part of the retention purge: the children first, then the events; a dry run only counts. */
    method PurgeEvents(expired: set<Id>, dryRun: bool) returns (keyRows: nat, deadLetters: nat)
      requires expired <= events.Keys
      modifies this
      ensures State() == if dryRun then old(State()) else Purge(old(State()), expired)
      ensures jobs == old(jobs)
      ensures keyRows == |set k | k in old(keys) && old(keys)[k] in expired|
      ensures deadLetters == |set id | id in old(dead) && id in expired|
      ensures old(KeysOk(State())) ==> KeysOk(State())
    {
      keyRows := |set k | k in keys && keys[k] in expired|;
      deadLetters := |set id | id in dead && id in expired|;
      if dryRun {
        return;
      }
      keys := map k | k in keys && keys[k] !in expired :: keys[k];
      logs := logs - expired;
      dead := dead - expired;
      events := events - expired;
    }
  }

  /** A request that gets past authentication and validation. */
  predicate Passes(r: Request) { r.active && (r.hasSecret ==> r.signatureOk) && r.body.Envelope? }

  /**
   The header decides, then the envelope's key, then the external id; an empty one of the first two counts as
   none.
   */
  predicate CarriesKey(r: Request, key: string) {
    Passes(r) && key != "" &&
    (|| r.headerKey == Some(key)
     || (r.headerKey in {None, Some("")} &&
         (|| r.body.idempotencyKey == Some(key)
          || (r.body.idempotencyKey in {None, Some("")} && r.body.externalId == Some(key)))))
  }

  /**
   Two calls one after the other: with one key between them the second answers with the first one's event and
   queues nothing.
   */
  method DeliverTwice(p: Platform, r: Request, r': Request, id: Id, id': Id, ghost key: string, ghost key': string)
      returns (first: Outcome, second: Outcome)
    requires KeysOk(p.State()) && id !in p.events && id' !in p.events && id != id'
    requires CarriesKey(r, key) && CarriesKey(r', key')
    modifies p
    ensures first == if key in old(p.keys) then Duplicate(old(p.keys)[key]) else Accepted(id)
    ensures key == key' ==> second == Duplicate(if key in old(p.keys) then old(p.keys)[key] else id)
    ensures key != key' ==> second == if key' in old(p.keys) then Duplicate(old(p.keys)[key']) else Accepted(id')
    ensures p.jobs == old(p.jobs) + (if first.Accepted? then [id] else []) + (if second.Accepted? then [id'] else [])
    ensures first.Accepted? ==> key in p.keys && p.keys[key] == id && id in p.events && p.events[id].key == key
  {
    first := p.Ingest(r, id);
    second := p.Ingest(r', id');
  }
}
