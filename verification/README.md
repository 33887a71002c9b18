# BTX platform: verified model of the backend's state machines

A Dafny 4.11 project about the Python backend's long-lived state: webhook delivery, work items and their
external writes, canonical identity, signal relationships, account scores, the two gates, and the paired
artifact commit. `dafny verify dfyconfig.toml` checks everything.

Code that changes rows, dictionaries or files step by step is a class here, with one method for each
source function. Each method is proved against a function on values: what it answers and the whole state
it leaves. The theorems are about those functions, and most of them are about runs, which are arbitrary
sequences of requests, worker steps, crashes and purges.

| file | what it holds |
|---|---|
| `RateLimit.dfy` | the sliding-window limiter, against one that remembers every accepted call |
| `RunGate.dfy` | the pipeline-run gate, against one that reads the whole table |
| `ArtifactCommit.dfy` | the feed/archive commit over a file store with failures at every operation |
| `Forward.dfy`, `Delivery.dfy`, `DeliveryRuns.dfy` | attempts of one event; the tables and `Platform` class; any interleaving of callers, workers and purges |
| `WorkItems.dfy`, `WorkItemApi.dfy`, `WorkItemRuns.dfy`, `Approvals.dfy` | the endpoints on one item; rows and store; runs; when an approval stands |
| `Flows.dfy`, `FlowKeys.dfy` | quote and order creation through an adapter that may raise or die; how many records an item tried with any keys causes |
| `Identifiers.dfy`, `Identity.dfy`, `IdentityTables.dfy` | normalisation; the identifier index and upsert; the code over its tables |
| `Relationships.dfy`, `RelationshipRuns.dfy`, `RelationshipTables.dfy` | resolution and review; runs; the code over its tables |
| `Scores.dfy`, `Attractiveness.dfy` | weighted scores with missing data; the attractiveness score |
| `WorkItemLaws.dfy`, `FlowLaws.dfy`, `IdentifierLaws.dfy`, `IdentityLaws.dfy`, `RelationshipLaws.dfy`, `ScoreLaws.dfy` | what each operation answers and leaves, told by action, field, identifier type and number, without the functions that compute it |

## Where the code does not keep a promise

Where a promise fails, the condition under which it holds is proved for all inputs or all runs.

- Tasks are acknowledged late (`btx_platform/workers/__init__.py:25`) and a forward does not look at the status, so
  a task delivered again after its outcome posts again. Each redelivery adds at most one post and one 2xx
  (`DeliveryRuns.PostsAreBounded`, reached in `Forward.RedeliveredDonePostsAgain`). An event is dead exactly when it
  is dead-lettered if and only if its task never began again while it was dead
  (`DeliveryRuns.DeadExactlyWhenLettered`, `Forward.RedeliveredDeadStaysInProcessing`).
- A call that dies between commit and enqueue loses its event: later deliveries of the key are answered as
  duplicates of an event nobody forwards (`DeliveryRuns.DeathBeforeEnqueueLosesEvent`).
- Dismissing an approved item is offered to admins only and accepted from everyone who may write; this is the only
  difference between what is offered and what is accepted (`WorkItemRuns.AcceptedExactlyWhenOffered`).
- The run gate checks and inserts in two steps. Starts stay spaced exactly when the gate would still admit each row at
  the moment of its insert (`RunGate.RacesAreSpacedExactlyWhen`, broken in `RunGate.RaceAdmitsTwo`). A run whose
  process died blocks its tenant for ever (`RunGate.DeadProcessBlocksTenant`).
- Staging of the artifact pair happens before the `try`; a failure there leaves staging files behind, and
  exactly which ones is stated (`ArtifactCommit.Disk.PersistCompletedRun`).
- A retry of an executed write returns its record exactly when an approval stands and the item is approved or in
  progress again; any other retry is refused and changes nothing (`Flows.RetryReturnsRecordExactlyWhenOpen`).
- A minted account id is not always new. With a basis it is new exactly when it does not own that basis already as the
  other of domain and legal name; a first domain that normalises to one with a dot is always enough
  (`Identity.MintsAreFreshExactlyWhen`). So a company named like another company's domain takes over its account, in
  either order, and the first one's legal name and HubSpot id are gone (`Identity.NameThenDomainMerge`,
  `Identity.DomainThenNameMerge`; `Identity.LettersAreAlike` has two such companies). Without a basis it is new only for the tenant's
  first such record, so all companies named by company words alone share one account
  (`Identity.AccountsAreTheMinted`, `Identity.BlankNamesMerge`).
- Normalising a domain twice is normalising it once exactly when its host does not start with "www.www." and has no
  white space around what one "www." leaves (`Identifiers.DomainIsNormalOnceExactlyWhen`).
- A resolution rewrites the confidence of a confirmed relationship, so the 0.80 floor holds afterwards exactly
  when the match is strong today (`RelationshipRuns.ConfirmedKeepsFloorExactlyWhenStrong`).
- Somebody has been asked about every relationship that needs a review exactly when no step so far reopened one
  without an active item or ended the last active item of one (`RelationshipRuns.EveryReviewIsQueuedExactlyWhen`);
  reopening what a person confirmed does the first (`RelationshipRuns.ReopenAfterConfirmDrops`).
- A relationship has had at most one active review item exactly when no step so far revived an item beside an active
  one (`RelationshipRuns.OneActiveExactlyWhenNoneRevived`). Reopening a dismissed item after the signal was resolved
  again does; the signal's resolution then raises until one of the two items is ended
  (`RelationshipRuns.RevivedItemBlocksResolution`, from a world that `RelationshipRuns.UnresolvedIsReachable` reaches;
  `RelationshipRuns.SomeOrder` and `RelationshipRuns.LetterIsNameable` show that its inputs exist).
- An item tried with several keys can cause several external records: more than one exactly when an attempt wrote under
  a new key without returning and a later one wrote under another (`FlowKeys.ManyRecordsExactlyWhen`). Once an attempt
  has returned, no key causes another (`FlowKeys.NoneAfterReturn`).

## Model

| member | source | states |
|---|---|---|
| RateLimit.RateLimiter.Allow | btx_platform/ratelimit.py:20-29 | the pop loop and append leave exactly the admission step's bucket; no other key's bucket changes |
| RateLimit.PruneIsWindow | btx_platform/ratelimit.py:24-25 | popping from the front of a sorted bucket is filtering by the closed window |
| RateLimit.AdmitKeepsWindow | btx_platform/ratelimit.py:24-29 | one call keeps the pruned bucket in step with the full history, accepted or refused |
| RateLimit.DecisionIsFullHistoryCount | btx_platform/ratelimit.py:20-29 | after any calls with a clock that never goes back: refused exactly when the window of all accepted calls of the key already holds max_requests; the bucket is then that window |
| RateLimit.CapOverEveryInterval | btx_platform/ratelimit.py:14-29 | no closed interval of one window length ever holds more than max_requests accepted calls of a key |
| RunGate.RunTable.AssertCanStart | btx_platform/pipeline.py:43-54 | the gate over the database's newest 20 rows; admitted only when none of them is in flight |
| RunGate.RunTable.TriggerPipeline | btx_platform/pipeline.py:155-192 | refusals add nothing; otherwise one row, failed exactly when the run raised, completed exactly when a subprocess went through, dispatched exactly when a GitHub run did |
| RunGate.NewestIsFirst | btx_platform/pipeline.py:34-40 | the first row of the window is the tenant's last inserted one |
| RunGate.WindowDecidesAsFullTable | btx_platform/pipeline.py:34-54 | in a spaced table 20 rows decide as all rows would |
| RunGate.InsertKeepsSpacedIffAdmitted | btx_platform/pipeline.py:43-54 | an insert keeps at most one run in flight and starts apart exactly when the whole-table gate admits it |
| RunGate.GateHolds | btx_platform/pipeline.py:155-192 | over every run with check and insert atomic: only a tenant's newest run is in flight and starts are the interval apart |
| RunGate.EveryDecisionIsTheFullTables | btx_platform/pipeline.py:34-54 | over every run each decision is the one the full history gives |
| RunGate.InFlightBlocks | btx_platform/pipeline.py:45-50 | while a run is in flight its tenant gets no other row and only its own finish touches it |
| RunGate.DeadProcessBlocksTenant | btx_platform/pipeline.py:43-54 | a run whose process died blocks its tenant from then on |
| RunGate.StatusTellsOutcome | btx_platform/pipeline.py:163-192 | over every run a row is failed, completed or dispatched exactly by how its process finished, and in flight until then |
| RunGate.RacesAreSpacedExactlyWhen | btx_platform/pipeline.py:155-192 | with check and insert apart, over every interleaving the runs stay spaced exactly when each insert would still be admitted |
| RunGate.RaceAdmitsTwo | btx_platform/pipeline.py:155-170 | a second check before the first insert admits both, and the spacing is lost |
| ArtifactCommit.Disk.WriteStagedJson | monitor_engine/pipeline.py:47-59 | a complete staging file, or after a failure none at all |
| ArtifactCommit.Disk.Restore | monitor_engine/pipeline.py:83-88 | which failures keep a previous file from being written back, and what is there meanwhile |
| ArtifactCommit.Disk.PersistCompletedRun | monitor_engine/pipeline.py:62-92 | returns exactly when nothing fails, with both files new; a failure in the try block leaves no staging file and the old feed, and the old archive exactly under the stated condition; every intermediate state has a new feed only with a new archive; the exact leftovers of a failure before the try block |
| ArtifactCommit.Disk.CommitOrRestore | monitor_engine/pipeline.py:77-92 | the try statement with its except and finally blocks |
| ArtifactCommit.Disk.Commit | monitor_engine/pipeline.py:78-81 | archive first and feed second; exactly which of the two a failure leaves replaced |
| Forward.ActKeepsChain | btx_platform/workers/forward.py:43-122 | every worker step, crashes and redeliveries included, keeps the event's books: counter, log rows, posts, dead letter, status, retries |
| Forward.ActMakesProgress | btx_platform/workers/forward.py:43-122 | every step that is no crash or redelivery strictly lowers the remaining work, and without redelivery the end is done or dead |
| Forward.RetryIsAlwaysAllowed | btx_platform/workers/forward.py:113-122 | a committed failure of a live event can always be retried under Celery's own limit |
| Forward.PurgeKeepsChain | btx_platform/retention.py:48-56 | deleting the row at any moment keeps the bounds on posts |
| Forward.BackoffIsMonotoneAndCapped | btx_platform/workers/forward.py:102-104 | waits never shrink from one retry to the next and never exceed the cap |
| Forward.FirstWaitIsBase | btx_platform/workers/forward.py:102-104 | the first wait is the base, up to the cap |
| Forward.BackoffIsExponential | btx_platform/workers/forward.py:102-104 | each later wait is the base times the one before, up to the cap |
| Forward.RevivedExactlyWhenBegunAgain | btx_platform/workers/forward.py:43-94 | a dead-lettered event stops being dead exactly when its task begins again while it is dead, and stays so |
| Forward.RedeliveredDonePostsAgain | btx_platform/workers/__init__.py:25 | a done task delivered again and answered 2xx makes one post and one 2xx more |
| Forward.RedeliveredDeadStaysInProcessing | btx_platform/workers/forward.py:84-89 | a dead task delivered again and refused leaves the event in processing with its dead letter and no log row |
| Delivery.Platform.Ingest | btx_platform/ingest.py:48-110 | the screening errors, the duplicate fast path, the accepted commit with one enqueue and the conflict, each with the whole state it leaves |
| Delivery.DeliverTwice | btx_platform/ingest.py:43-110 | of two calls with one key, by header, envelope or external id in that order, the second gets the first one's event and queues nothing; with two keys each gets its own |
| Delivery.Platform.InsertEvent | btx_platform/ingest.py:84-101 | event and key row together or neither |
| Delivery.Platform.AnswerConflict | btx_platform/ingest.py:99-106 | after a refused commit the key is read again: a duplicate if it is there, else 409 |
| Delivery.Platform.ForwardEventSync | btx_platform/workers/forward.py:27-94 | done exactly on a code from 200 to 299, failed exactly on another reply with attempts left, dead with a dead letter on the last; the log row, the error text and the counter each leaves, and no other event touched |
| Delivery.Platform.FinishForward | btx_platform/workers/forward.py:63-94 | the outcome commit; with a dead letter already there it is refused and nothing changes |
| Delivery.Platform.PurgeEvents | btx_platform/retention.py:39-56 | children and events go together, a dry run only counts, and every key row left points at a live event |
| Delivery.Platform.EnqueueForward | btx_platform/queue.py:18-25 | appends the id to the queue |
| DeliveryRuns.NextKeeps | btx_platform/ingest.py:77-110 | every step of any caller, worker or purge keeps the invariant of the whole platform |
| DeliveryRuns.RunKeeps | btx_platform/ingest.py:77-110 | and so does every interleaving from the empty platform |
| DeliveryRuns.OneEventPerKey | btx_platform/ingest.py:77-110 | one persisted event for each key; all calls of a key get its id; only one of them is told it was new |
| DeliveryRuns.KeyRowsStayLive | btx_platform/models.py:82-89 | every key row points at a live event with that key, and every keyed event has its key row, purges included |
| DeliveryRuns.QueuedExactlyWhenEnqueued | btx_platform/ingest.py:98-110 | an id is queued exactly when its call enqueued it, answered or not, once, and only after its commit |
| DeliveryRuns.PostsAreBounded | btx_platform/workers/forward.py:43-94 | posts are at most max(1, max_attempts) and 2xx answers at most one, each plus one per crash and per redelivery |
| DeliveryRuns.EndToEnd | btx_platform/workers/forward.py:27-94 | for every interleaving without crash, redelivery or purge, one key means one forwarded event, at most max(1, max_attempts) posts and at most one 2xx |
| DeliveryRuns.ForwardAccounting | btx_platform/models.py:104-113 | attempts are log rows plus lost, unsaved and running attempts, logged numbers strictly increase, a dead event is dead-lettered |
| DeliveryRuns.DeadExactlyWhenLettered | btx_platform/models.py:104-113 | over every run a live event is dead exactly when dead-lettered, if and only if its task never began again while it was dead |
| DeliveryRuns.OutcomeFollowsReply | btx_platform/workers/forward.py:63-94 | over every run the status an outcome leaves and the log row it adds follow from the code the destination gave |
| DeliveryRuns.StepsArePaidByRank | btx_platform/workers/forward.py:58-94 | the steps a queue entry took plus its rank never exceed four for each allowed attempt |
| DeliveryRuns.ChainsEnd | btx_platform/workers/forward.py:58-122 | a chain ends after at most that many steps, can always step until then, and ends done or dead |
| DeliveryRuns.StepsAreBounded | btx_platform/workers/forward.py:43-122 | with crashes and redeliveries a live event's task takes at most four steps per allowed attempt, five per crash, six per redelivery and one more |
| DeliveryRuns.DeathBeforeEnqueueLosesEvent | btx_platform/ingest.py:98-110 | a call that dies after its commit leaves an event that is never queued but answers for its key |
| WorkItemApi.WorkItemRow.ApplyTransition | btx_platform/api.py:383-435 | the checks in their order and the fields each action assigns; nothing changes on a refusal, except before a bad follow-up date is found |
| WorkItemApi.WorkItemRow.AppendAudit | btx_platform/api.py:344-371 | one entry at the end with both states and both snapshots |
| WorkItemApi.Api.CreateWorkItem | btx_platform/api.py:2348-2407 | what is stored for a new item |
| WorkItemApi.Api.TransitionWorkItem | btx_platform/api.py:2533-2564 | the reply and the stored item are the endpoint's; other items stay |
| WorkItemApi.Api.PatchWorkItem | btx_platform/api.py:2498-2530 | details change and nothing else; unreadable dates change nothing |
| WorkItemApi.Api.AddWorkItemNote | btx_platform/api.py:2567-2598 | only the history grows |
| WorkItemApi.Api.DismissWorkItem | btx_platform/api.py:2601-2619 | allowed exactly when offered |
| WorkItemApi.Api.ExecuteHubSpotTask | btx_platform/api.py:2073-2245 | screening, duplicate answer, other-key refusal, approval gate, the committed start and the committed end |
| WorkItemApi.Api.PurgeAuditHistories | btx_platform/retention.py:58-75 | every item keeps exactly its recent entries; the count is of the items that lost some |
| WorkItemRuns.AcceptedExactlyWhenOffered | btx_platform/api.py:278-293 | a transition is accepted exactly when its own fields are filled and it is offered, or dismisses an approved item |
| WorkItemLaws.GivenExactlyWhenStripped | btx_platform/api.py:394-399 | a text counts as given exactly when stripping leaves something of it |
| WorkItemLaws.TransitionReply | btx_platform/api.py:390-405 | which transitions are accepted, and with which code the others are refused, action by action |
| WorkItemLaws.TransitionTarget | btx_platform/api.py:106-118 | the action alone decides the new status |
| WorkItemLaws.TransitionFields | btx_platform/api.py:407-434 | what else each action changes, and that nothing else changes |
| WorkItemLaws.AcceptedIsTold | btx_platform/api.py:344-371 | each accepted request adds one entry with who, when, both states and both pictures of the item |
| WorkItemLaws.EntryNames | btx_platform/api.py:438-452 | the entry's name tells the action |
| WorkItemLaws.EveryStatusIsEarned | btx_platform/api.py:106-118 | over every run each status is entered only by its own action; verified only from executed, with the record external work needs, or by a HubSpot task |
| WorkItemLaws.OfferedLaw | btx_platform/api.py:278-293 | what is offered to whom, status by status |
| WorkItemLaws.DismissLaw | btx_platform/api.py:2601-2619 | who may dismiss what, and what it leaves |
| WorkItemLaws.PlainUpdates | btx_platform/api.py:2498-2598 | a patch changes the details and a note nothing but the history |
| WorkItemLaws.ReviewClosesItem | btx_platform/api.py:1687-1700 | a decided review closes its item unless it is over |
| WorkItemLaws.PurgeKeepsEntryExactlyWhen | btx_platform/retention.py:58-72 | an entry is kept exactly when it is recent or has no readable time |
| WorkItemLaws.CreatedLaw | btx_platform/api.py:2348-2407 | the fields and the first entry of a new item |
| WorkItemLaws.TaskReply | btx_platform/api.py:2074-2115 | the answers to a task request in the order of the checks |
| WorkItemLaws.TaskLeaves | btx_platform/api.py:2116-2245 | what a created, failed or interrupted task leaves on the item |
| WorkItemLaws.TaskIsTold | btx_platform/api.py:2116-2245 | the start and the end of a task are told one after the other |
| WorkItemRuns.CreatedIsNew | btx_platform/api.py:2348-2407 | what POST /work-items stores is where the runs begin |
| WorkItemRuns.RefusedChangesNothing | btx_platform/api.py:2533-2564 | a refused request leaves the item as it was; only a failed HubSpot write is recorded |
| WorkItemRuns.TaskIsFinal | btx_platform/api.py:2093-2115 | once set, the HubSpot record id and the winning key never change, reopen included; that key is answered with the id and any other is refused |
| WorkItemRuns.ExternalStaysOk | btx_platform/api.py:2137-2232 | a record id is always HubSpot's and comes with its key |
| WorkItemRuns.ApprovedExactlyWhileStanding | btx_platform/api.py:383-435 | the approval state is approved exactly while an approval by a cro or admin stands |
| WorkItemRuns.WritesAreApproved | btx_platform/api.py:2110-2115 | whenever a HubSpot write starts, such an approval stands |
| WorkItemRuns.AuditReplays | btx_platform/api.py:344-371 | at every moment the history replays: each entry starts where the one before ended, the last ends at the current status |
| WorkItemRuns.WholeHistoryReplays | btx_platform/api.py:344-371 | without purges it replays from the item's creation, whatever the clock does |
| WorkItemRuns.HistoryIsAppendOnly | btx_platform/api.py:355-371 | without purges every earlier history is a prefix of every later one |
| WorkItemRuns.KeptIsSuffix | btx_platform/retention.py:58-72 | with times in order a purge keeps a suffix |
| WorkItemRuns.PurgeKeepsAudit | btx_platform/retention.py:58-72 | and that suffix still replays to the current status |
| WorkItemRuns.ReplaySuffix | btx_platform/retention.py:58-72 | any suffix of a chain is a chain from the state before it |
| WorkItemRuns.HandleIsPaid | btx_platform/api.py:106-118 | each endpoint pays for its forward move with the rank of the status |
| WorkItemRuns.ForwardMovesAreBounded | btx_platform/api.py:106-118 | forward moves are at most 9 plus 8 per reopening plus one per rejection and per restart |
| Flows.StubAdapter.Create | btx_platform/integrations/stubs.py:44-57 | the same key always gets the first record back; a new key adds one record |
| Flows.BeginExecution | btx_platform/integrations/flows.py:82-113 | the gates in their order, the pass for a recorded key, and the started row |
| Flows.CreateFromWorkItem | btx_platform/integrations/flows.py:46-79 | refused, failed or completed, each with the row and the adapter store it leaves |
| FlowLaws.BeginLaw | btx_platform/integrations/flows.py:82-99 | when a write may begin, by tenant, approval, status, system and key |
| FlowLaws.StartLaw | btx_platform/integrations/flows.py:100-113 | what the start leaves: a recorded item as it was, any other in progress under its system and key |
| FlowLaws.RecordLaw | btx_platform/integrations/stubs.py:44-57 | the reference of a new key, by system and document, and that no other record changes |
| FlowLaws.ReturnLaw | btx_platform/integrations/flows.py:116-130 | a returned attempt leaves the item executed with the id of the record |
| FlowLaws.RaiseLaw | btx_platform/integrations/flows.py:133-139 | a raised one leaves it failed with the message |
| FlowLaws.OtherwiseLaw | btx_platform/integrations/flows.py:46-79 | a refused attempt changes nothing; an interrupted one leaves the item as it was or as it started |
| Flows.NextKeeps | btx_platform/integrations/flows.py:46-139 | an attempt with any fate, another endpoint or another item's write keeps the record and the item in agreement |
| Flows.OnceOnly | btx_platform/integrations/flows.py:46-139 | with one key, any run of returns, raises and deaths creates one record at most; all returns are equal; the record id never changes |
| Flows.AttemptBeginsExactlyWhenOpen | btx_platform/integrations/flows.py:82-99 | over every run an attempt begins exactly when an approval stands and the item is approved or in progress; any other changes nothing |
| Flows.RetryReturnsRecordExactlyWhenOpen | btx_platform/integrations/flows.py:87-99 | on an item with its record a retry returns that record, and records nothing new, exactly when it is open |
| Flows.AuditReplays | btx_platform/integrations/flows.py:100-165 | the history replays to the current status through external writes of any fate too |
| Flows.WholeHistoryReplays | btx_platform/integrations/flows.py:100-165 | without purges it replays from its beginning, whatever the clock does |
| Flows.HistoryIsAppendOnly | btx_platform/integrations/flows.py:153-175 | without purges in between every earlier history is a prefix of every later one |
| FlowKeys.RecordsAreCounted | btx_platform/integrations/stubs.py:44-57 | what the adapter has recorded is what the item and the other items caused |
| FlowKeys.NoneAfterReturn | btx_platform/integrations/flows.py:87-99 | once an attempt has returned, no attempt with any key causes another record |
| FlowKeys.AtMostOneIsNotOrphaned | btx_platform/integrations/flows.py:46-139 | tried with any keys, an item causes one record per attempt that wrote without returning, and at most one more |
| FlowKeys.ManyRecordsExactlyWhen | btx_platform/integrations/flows.py:46-139 | it causes more than one exactly when an attempt wrote under a new key without returning and a later one wrote under another |
| FlowKeys.NewKeyAfterDeath | btx_platform/integrations/flows.py:46-79 | any open item without a record does so when a death after the write is followed by a new key |
| Flows.ApprovedExactlyWhileStanding | btx_platform/integrations/flows.py:87-88 | the approval state follows the standing approval through external writes too |
| Flows.WritesAreApproved | btx_platform/integrations/flows.py:87-88 | every begun write has a standing approval |
| Identifiers.NormalizeIgnoresSpace | btx_platform/intelligence.py:146-157 | surrounding white space never matters |
| Identifiers.NameHasNoDot | btx_platform/intelligence.py:146-157 | a normalised legal name has no dot |
| Identifiers.NameIsNormalOnce | btx_platform/intelligence.py:146-157 | normalising names is idempotent |
| Identifiers.DomainIsNormalOnceExactlyWhen | btx_platform/intelligence.py:148-153 | normalising a domain twice equals once exactly under a condition on its host |
| Identifiers.DomainIsNotNormalOnce | btx_platform/intelligence.py:148-153 | a domain that does not meet it |
| IdentifierLaws.StripLaw | btx_platform/intelligence.py:146-147 | stripping takes the white space at both ends and nothing else |
| IdentifierLaws.CodeLaw | btx_platform/intelligence.py:146-157 | codes are normalised letter by letter: letters and digits stay in lower case and in order, all else goes |
| IdentifierLaws.SeparatorLaw | btx_platform/intelligence.py:154-157 | in names any other character separates words as one space does |
| IdentifierLaws.CaseLaw | btx_platform/intelligence.py:146-147 | upper and lower case are the same |
| IdentifierLaws.WordLaw | btx_platform/intelligence.py:154-157 | company words go and the other words stay in order with one space between |
| IdentifierLaws.DomainLaw | btx_platform/intelligence.py:148-153 | a scheme, one "www." and a path do not matter |
| IdentityLaws.UpsertRegisters | btx_platform/intelligence.py:305-324 | each text of the record that has a key is registered under its own type, for its old owner or the record's account, verified unless an alias |
| IdentityLaws.OnlyFieldsAreRegistered | btx_platform/intelligence.py:305-324 | and nothing else is registered or changed |
| IdentityLaws.AccountLaw | btx_platform/intelligence.py:277-300 | the account row an upsert leaves, field by field |
| IdentityLaws.HubSpotDecides | btx_platform/intelligence.py:231-242 | a HubSpot id some account has decides |
| IdentityLaws.DomainDecides | btx_platform/intelligence.py:243-265 | without one the first known domain decides |
| IdentityLaws.NameDecidesLast | btx_platform/intelligence.py:247-265 | then the single domain field, then the name, and nothing else |
| IdentityLaws.SourceIdsPointToLast | btx_platform/intelligence.py:294-303 | a source id points at the account of the last record that carries it |
| IdentityLaws.NoOtherSourceIds | btx_platform/intelligence.py:294-303 | and the map holds no other ids |
| Identity.UpsertAllClaims | btx_platform/intelligence.py:180-227 | every usable claim is registered; a free key goes to the account, a taken one keeps its owner |
| Identity.UpsertKeeps | btx_platform/intelligence.py:268-325 | every upsert keeps the index a function into existing accounts, owners, verification, other tenants and the HubSpot uniqueness |
| Identity.UpsertKeepsHubSpotUnique | btx_platform/intelligence.py:268-300 | no HubSpot id gets two accounts |
| Identity.OwnersAreForever | btx_platform/intelligence.py:180-227 | over every run no identifier changes its account and none loses verification |
| Identity.MintIsFreshExactlyWhen | btx_platform/intelligence.py:160-163 | a minted account id with a basis is new exactly when it does not own the basis under the other type |
| Identity.MintsAreFreshExactlyWhen | btx_platform/intelligence.py:268-325 | and so over every run from the empty store, whatever the other records; a first domain that normalises to one with a dot is enough |
| Identity.AccountsAreTheMinted | btx_platform/intelligence.py:278-300 | an account exists exactly when some earlier record minted it, so a mint without a basis is new exactly for the tenant's first |
| Identity.IdentityIsStable | btx_platform/intelligence.py:230-325 | a record that claimed its first candidate resolves to the same account for ever, unless another record carries its HubSpot id |
| Identity.WhenFirstCandidateIsOwned | btx_platform/intelligence.py:230-265 | exactly when an upsert claims the first candidate |
| Identity.NameThenDomainMerge | btx_platform/intelligence.py:160-163 | a company and a later one whose first domain normalises to its name get one account, which keeps nothing of the first one's legal name and HubSpot id |
| Identity.DomainThenNameMerge | btx_platform/intelligence.py:160-163 | and so in the other order |
| Identity.BlankNamesMerge | btx_platform/intelligence.py:154-163 | companies whose names normalise to nothing share one account from any store |
| IdentityTables.CanonicalTables.UpsertIdentifier | btx_platform/intelligence.py:180-227 | one identifier is taken, refreshed or left alone |
| IdentityTables.CanonicalTables.FindExistingAccount | btx_platform/intelligence.py:230-265 | HubSpot id first, then the first verified candidate whose account exists |
| IdentityTables.CanonicalTables.UpsertCanonicalAccounts | btx_platform/intelligence.py:268-325 | a batch leaves exactly the store of its upserts in turn, and maps each source id to its record's account |
| Relationships.FirstByType | btx_platform/intelligence.py:537-538 | the first key by type name among those found |
| RelationshipLaws.MatchesExactly | btx_platform/intelligence.py:411-433 | an account is matched exactly when some identifier the name meets is its own: any type but a HubSpot id, a domain only with a dot |
| RelationshipLaws.RanksAreAlphabetical | btx_platform/intelligence.py:538 | sorting by type is sorting by the stored names of the types |
| RelationshipLaws.RowsAfterResolution | btx_platform/intelligence.py:525-558 | which rows there are after a resolution, and that it touches no others |
| RelationshipLaws.RowAfterResolution | btx_platform/intelligence.py:532-568 | method, confidence, status, evidence and confirmer of a handled row, by the identifiers met |
| RelationshipLaws.HandledInOrder | btx_platform/intelligence.py:525-542 | entities one after the other, and the accounts of one in their order |
| RelationshipLaws.SignalAfterResolution | btx_platform/intelligence.py:582-592 | the signal is tied to the first confirmed relationship, unlinked when none is, as it came without any |
| RelationshipLaws.ActiveExactlyWhile | btx_platform/intelligence.py:597 | an item is active exactly while it can be dismissed |
| RelationshipLaws.ReviewOfRow | btx_platform/api.py:1630-1677 | when a review is refused and what each action does to the row |
| RelationshipLaws.ReviewAround | btx_platform/api.py:1647-1700 | what each action does to the signal, the audit and the review items |
| RelationshipRuns.MatchConfirmsExactlyWhenStrong | btx_platform/intelligence.py:532-540 | a match confirms exactly when it is unique and its first identifier by type is strong and verified |
| RelationshipRuns.KeysOfExactly | btx_platform/intelligence.py:525-541 | which relationships a signal stands for |
| RelationshipRuns.HandledRows | btx_platform/intelligence.py:541-568 | each handled row depends on its own match and old status only, not on the order of the batch |
| RelationshipRuns.ResolutionDecides | btx_platform/intelligence.py:559-562 | a decided status is kept; any other row is confirmed exactly on a strong match |
| RelationshipRuns.ConfirmedKeepsFloorExactlyWhenStrong | btx_platform/intelligence.py:559-562 | a confirmed row keeps the 0.80 floor through a resolution exactly when the match is strong |
| RelationshipRuns.ResolveTwice | btx_platform/intelligence.py:521-592 | resolving again with unchanged identifiers changes no relationship, audit row, review item or signal link |
| RelationshipRuns.UnresolvedAreQueued | btx_platform/intelligence.py:580-581 | every handled row that needs a review has an active item |
| RelationshipRuns.EveryRowIsAccountedFor | btx_platform/intelligence.py:555-579 | over every run each relationship has evidence and exactly one candidate audit row, each confirmed one a confirmer |
| RelationshipRuns.ConfirmedExactlyWhileConfirmationStands | btx_platform/api.py:1636-1673 | over every run a row is confirmed exactly while a reviewer's or a strong match's confirmation stands; the resolver never withdraws one |
| RelationshipRuns.AtMostOneActiveItem | btx_platform/intelligence.py:595-626 | over every run without a revival a relationship has at most one active review item, and no resolution raises |
| RelationshipRuns.OneActiveExactlyWhenNoneRevived | btx_platform/intelligence.py:595-626 | over every run each relationship has had at most one active item so far exactly when no step so far was a revival |
| RelationshipRuns.MoveKeepsOneActiveExactlyWhen | btx_platform/intelligence.py:597-604 | moving an item makes a second active one exactly when it revives while another is active |
| RelationshipRuns.RevivedItemBlocksResolution | btx_platform/intelligence.py:598-602 | dismiss, resolve, reopen: the signal can no longer be resolved |
| RelationshipRuns.ResolvedLaterAddsNothing | btx_platform/intelligence.py:543-579 | over every run, resolving a signal again with unchanged identifiers, after any reviews and item moves, adds no relationship and no audit row |
| RelationshipRuns.NextKeepsQueuedExactlyWhen | btx_platform/api.py:1636-1700 | which steps leave a row that needs a review without an active item |
| RelationshipRuns.EveryReviewIsQueuedExactlyWhen | btx_platform/intelligence.py:580-604 | over every run everybody has been asked exactly when no such step was taken |
| RelationshipRuns.ReopenAfterConfirmDrops | btx_platform/api.py:1659-1663 | reopening what a person has just confirmed is such a step |
| RelationshipRuns.UnresolvedIsReachable | btx_platform/intelligence.py:521-581 | a row that needs a review, with its item, is reached from the empty world |
| RelationshipTables.RelationshipTables.EnsureReviewItem | btx_platform/intelligence.py:595-626 | raises exactly on two active items; otherwise there is one |
| RelationshipTables.RelationshipTables.UpsertRelationship | btx_platform/intelligence.py:541-581 | one row, its candidate audit row and its review item |
| RelationshipTables.RelationshipTables.ResolveSignalRelationships | btx_platform/intelligence.py:521-592 | the nested loops leave exactly what the resolution says, or everything as it was when it raises |
| RelationshipTables.RelationshipTables.PatchSignalRelationship | btx_platform/api.py:1614-1705 | the review's reply, row, signal, audit row and closed items |
| ScoreLaws.RoundingLaw | btx_platform/intelligence.py:630-655 | two and four digits, to the nearest, halfway to the even one |
| ScoreLaws.FactorLaw | btx_platform/intelligence.py:629-655 | what one more factor adds to weight and points |
| ScoreLaws.ResultLaw | btx_platform/intelligence.py:646-656 | forced status, failed gate, completeness, and when there is a score |
| ScoreLaws.AttractivenessIs | btx_platform/intelligence.py:732-748 | the score of an account as a number, from its capabilities, its largest figure and its newest signal |
| ScoreLaws.CompletenessIs | btx_platform/intelligence.py:732-748 | how much is known about any account |
| Scores.ComputeScoreResult | btx_platform/intelligence.py:646-669 | the sums and the result, factor by factor |
| Scores.RoundIsNearest | btx_platform/intelligence.py:630 | rounding goes to the nearest, and halfway to the even one |
| Scores.RoundPercent | btx_platform/intelligence.py:649-655 | a score rounded to two digits and a completeness rounded to four are on the same grid |
| Scores.ScoreIsBounded | btx_platform/intelligence.py:629-669 | a score lies between 0 and 100 times completeness |
| Scores.ScoreIsMonotone | btx_platform/intelligence.py:629-669 | for any non-negative weights and values, raising known factors or learning missing ones never lowers completeness or score and never loses the score |
| Scores.InsufficientHasNoScore | btx_platform/intelligence.py:769-780 | a family without sources has no score, whatever its weights |
| Attractiveness.ConfirmedSignalsForAccount | btx_platform/intelligence.py:713-729 | query and check together keep exactly the counting signals, in table order |
| Attractiveness.ConfirmedExactly | btx_platform/intelligence.py:496-518 | a signal counts exactly when some row of the account is confirmed, at 0.80 or more, with evidence, and the signal is about that account |
| Attractiveness.FinancialValueIsLargest | btx_platform/intelligence.py:684-695 | the financial value is the largest positive figure of any counting signal |
| Attractiveness.MoreEvidenceNeverLowers | btx_platform/intelligence.py:732-748 | another confirmed signal never lowers an account's score and never takes it away |
| Attractiveness.OnlyEligibleRowsMatter | btx_platform/intelligence.py:713-748 | rows that are not confirmed or below 0.80 change no account's result, nor do order and repetition |
| Attractiveness.AvailableExactlyWhen | btx_platform/intelligence.py:672-748 | a score exactly when a capability matches and a counting signal carries money; then within 16.25 and 67 on 70 percent of the weights, otherwise none |
| Attractiveness.ReviewDecidesWhatCounts | btx_platform/api.py:1636-1675 | a confirmed row's signal counts at once, a rejected or reopened row stops counting, a signal marked market or program counts for nobody |
| Attractiveness.ResolutionLinksOneAccount | btx_platform/intelligence.py:582-592 | a resolved signal counts for no account but the linked one, and for that one on a strong match |
| Attractiveness.SignalCountsForOneAccount | btx_platform/intelligence.py:496-518 | after every run of resolution and review a signal counts for one account at most, if incoming account-specific signals name theirs |
| Attractiveness.CountsExactlyWhen | btx_platform/intelligence.py:496-518 | a signal counts for an account exactly when it is account-specific, has an eligible row with evidence, and names this account or none |
| Attractiveness.CountsForTwoExactlyWhenUnnamed | btx_platform/intelligence.py:504-506 | with eligible rows for two accounts a signal counts for both exactly when it names none; a named one counts for its own only |

## Left out

- HTTP, authentication, signatures and encryption: a request is its role, actor and validated payload.
- HubSpot, adapters behind the stubs, GitHub dispatch and subprocesses: each is an arbitrary reply, failure or
  death. A Python exception from HubSpot that is not a HubSpotError counts as the process dying.
- Duplicates on HubSpot's own side after a crash between its write and the second commit: the platform has no record of them.
- One item written both through HubSpot and through a quote or order adapter: the two paths are on separate items here.
- SQL and sessions: maps and sequences with explicit commits and the declared uniqueness constraints. The order in
  which the database returns rows is a parameter, as is the order of account ids under sorting.
- Concurrent requests on one work item: they are handled one at a time; webhook deliveries are interleaved step by step.
- Celery's broker: a task whose worker dies is delivered again, before or after its outcome. Two copies of one task at
  the same time, as after a retry that was scheduled but whose message was not acknowledged, are not modelled.
- Text beyond ASCII in normalisation, and the SHA-256 of account ids: the hash is taken as injective.
- Floating point: scores are exact reals. The logarithm and the half-life are any curves with the stated
  positivity, range and monotonicity.
- The text match of capabilities: how many match is a number given to the score.
- `signal_confidence`, score snapshots and scoring configuration: the same weighted sum with other weights.
- RelationshipRuns.ResolveTwice: does not model the validation times of a row, which every resolution renews.
- Attractiveness.ResolutionLinksOneAccount: takes the resolver's new subject as stored. The code changes the dictionary
  already assigned to `raw_payload` (`btx_platform/intelligence.py:405`, `btx_platform/intelligence.py:582-587`) after a
  flush, and equal old and new values may not be written.
- Attractiveness.SignalCountsForOneAccount: takes it as stored in the same way.
- Evidence ids and display texts of score factors: only score, status and completeness are modelled.
- WorkItemApi.WorkItemRow.AppendAudit: notes, reasons, metadata, ids and the nested earlier history of an entry are not modelled.
- WorkItemApi.Api.CreateWorkItem: does not answer with an existing item of the same deduplication key, and has no dates.
- Legacy status names and `allowed_actions` in error bodies.
- Account syncing for the demo tenant and demo seeding: their ids bypass the identifier index.
- Delivery.Platform.PurgeEvents: counts key rows and dead letters, not log rows.
- WorkItemApi.Api.PurgeAuditHistories: counts the touched items, not the removed entries.
- RelationshipTables.RelationshipTables.PatchSignalRelationship: closes review items only, where the code closes every
  work item related to the relationship, and leaves out the items' audit entries and outcomes.
- ArtifactCommit.Disk.PersistCompletedRun: the final unlinks of the two staging files are taken to work, and new lines,
  directories and permissions are not modelled.
- ArtifactCommit.Disk.CommitOrRestore: the same final unlinks.
