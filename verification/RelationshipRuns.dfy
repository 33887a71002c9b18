/** What signal resolution and human review keep, over single steps and over every run. */
module RelationshipRuns {
  import opened Common
  import opened Identifiers
  import opened Identity
  import opened Relationships
  import opened Approvals
  import WorkItems

  /******* What a match confirms *******/

  /** The entity's keys name one account only, and the first of them by type is strong and verified. */
  ghost predicate StrongKeys(index: Index, found: seq<IdKey>, account: AccountId)
    requires forall k: IdKey :: k in found ==> k in index
  {
    && found != []
    && (forall k: IdKey :: k in found ==> index[k].account == account)
    && FirstByType(found).idType != VerifiedAlias
    && index[FirstByType(found)].verified
  }

  ghost predicate StrongMatch(index: Index, tenant: string, entity: string, account: AccountId) {
    StrongKeys(index, Registered(index, LookupKeys(tenant, entity)), account)
  }

  lemma KeysConfirmExactlyWhenStrong(index: Index, found: seq<IdKey>, account: AccountId)
    requires forall k: IdKey :: k in found ==> k in index
    requires account in MatchOfKeys(index, found).accounts
    ensures MatchOfKeys(index, found).review == Confirmed <==> StrongKeys(index, found, account)
    ensures MatchOfKeys(index, found).confidence >= MINIMUM_CONFIDENCE <==> StrongKeys(index, found, account)
    ensures MatchOfKeys(index, found).review in {Confirmed, NeedsReview}
  {
    var accounts := MatchOfKeys(index, found).accounts;
    assert forall k: IdKey :: k in found ==> index[k].account in accounts;
    if StrongKeys(index, found, account) {
      assert accounts == {account};
    } else if |accounts| == 1 {
      OnlyMember(accounts, account);
      assert forall k: IdKey :: k in found ==> index[k].account == account;
    }
  }

  lemma OnlyMember(s: set<AccountId>, a: AccountId)
    requires |s| == 1 && a in s
    ensures s == {a}
  {
    assert |s - {a}| == 0;
  }

  /** A match confirms exactly when it is unique and its first identifier by type is strong and verified. */
  lemma MatchConfirmsExactlyWhenStrong(index: Index, tenant: string, entity: string, account: AccountId)
    requires account in MatchOf(index, tenant, entity).accounts
    ensures MatchOf(index, tenant, entity).review == Confirmed <==> StrongMatch(index, tenant, entity, account)
    ensures MatchOf(index, tenant, entity).confidence >= MINIMUM_CONFIDENCE
        <==> StrongMatch(index, tenant, entity, account)
    ensures MatchOf(index, tenant, entity).review in {Confirmed, NeedsReview}
  {
    KeysConfirmExactlyWhenStrong(index, Registered(index, LookupKeys(tenant, entity)), account);
  }

  /******* What a resolution handles *******/

  ghost predicate NamesEntity(entities: seq<string>, entity: string) {
    exists i :: 0 <= i < |entities| && Strip(entities[i]) == entity
  }

  lemma NamesLast(entities: seq<string>, entity: string)
    requires entities != []
    ensures NamesEntity(entities, entity)
        <==> NamesEntity(entities[..|entities| - 1], entity) || Strip(entities[|entities| - 1]) == entity
  {
    var before := entities[..|entities| - 1];
    if NamesEntity(before, entity) {
      var i :| 0 <= i < |before| && Strip(before[i]) == entity;
      assert entities[i] == before[i];
    }
  }

  /** A relationship is handled exactly when the signal names its entity and the entity's keys name its account. */
  lemma {:induction false} KeysOfExactly(lookup: Lookup, tenant: string, signal: string, entities: seq<string>,
                                         order: Order, k: RelKey)
    requires IsOrder(order)
    ensures k in KeysOf(lookup, tenant, signal, entities, order) <==>
            && k.tenant == tenant && k.signal == signal && k.entity != "" && NamesEntity(entities, k.entity)
            && k.account in lookup(tenant, k.entity).accounts
  {
    if entities != [] {
      var before, entity := entities[..|entities| - 1], Strip(entities[|entities| - 1]);
      var accounts := lookup(tenant, entity).accounts;
      KeysOfExactly(lookup, tenant, signal, before, order, k);
      NamesLast(entities, k.entity);
      KeysForExactly(tenant, signal, entity, accounts, order, k);
      assert KeysOf(lookup, tenant, signal, entities, order)
          == KeysOf(lookup, tenant, signal, before, order) + if entity == "" then []
              else KeysFor(tenant, signal, entity, order(accounts));
    }
  }

  lemma KeysForExactly(tenant: string, signal: string, entity: string, accounts: set<AccountId>, order: Order,
                       k: RelKey)
    requires IsOrder(order)
    ensures k in KeysFor(tenant, signal, entity, order(accounts)) <==>
            k.tenant == tenant && k.signal == signal && k.entity == entity && k.account in accounts
  {
    var keys, ids := KeysFor(tenant, signal, entity, order(accounts)), order(accounts);
    if k.tenant == tenant && k.signal == signal && k.entity == entity && k.account in accounts {
      assert k.account in ids;
      var i :| 0 <= i < |ids| && ids[i] == k.account;
      assert keys[i] == k;
    }
  }

  /** A resolution adds or changes only the rows it handles, and removes none. */
  lemma {:induction false} OnlyHandledRowsChange(lookup: Lookup, w: World, keys: seq<RelKey>)
    ensures var w' := UpsertRels(lookup, w, keys);
            && w'.index == w.index && w'.signals == w.signals
            && (forall k: RelKey :: k in w'.rels <==> k in w.rels || k in keys)
            && (forall k: RelKey :: k in w.rels && k !in keys ==> w'.rels[k] == w.rels[k])
  {
    if keys != [] {
      OnlyHandledRowsChange(lookup, w, keys[..|keys| - 1]);
      assert keys == keys[..|keys| - 1] + [keys[|keys| - 1]];
    }
  }

  lemma ResolvedRelTwice(lookup: Lookup, w: World, k: RelKey, other: RelKey)
    ensures ResolvedRel(lookup, UpsertRel(lookup, w, other), k) == ResolvedRel(lookup, w, k)
  {
  }

  /** What a row becomes does not depend on how much of the batch was handled before it. */
  lemma {:induction false} ResolvedRelStays(lookup: Lookup, w: World, keys: seq<RelKey>, k: RelKey)
    ensures ResolvedRel(lookup, UpsertRels(lookup, w, keys), k) == ResolvedRel(lookup, w, k)
  {
    if keys != [] {
      ResolvedRelStays(lookup, w, keys[..|keys| - 1], k);
      ResolvedRelTwice(lookup, UpsertRels(lookup, w, keys[..|keys| - 1]), k, keys[|keys| - 1]);
    }
  }

  /** Every handled row is the one its own match and its own old status give, in whatever order the batch ran. */
  lemma {:induction false} HandledRows(lookup: Lookup, w: World, keys: seq<RelKey>, k: RelKey)
    requires k in keys
    ensures k in UpsertRels(lookup, w, keys).rels && UpsertRels(lookup, w, keys).rels[k] == ResolvedRel(lookup, w, k)
  {
    var before, last := keys[..|keys| - 1], keys[|keys| - 1];
    OnlyHandledRowsChange(lookup, w, keys);
    ResolvedRelStays(lookup, w, before, last);
    if k != last {
      assert keys == before + [last];
      HandledRows(lookup, w, before, k);
    }
  }

  /**
   A row decided by a reviewer or by an earlier confirmation keeps its status; any other takes the status of its
   match.
   */
  lemma ResolutionDecides(w: World, keys: seq<RelKey>, k: RelKey)
    requires k in keys && k.account in MatchOf(w.index, k.tenant, k.entity).accounts
    ensures k in UpsertRels(LookupOf(w.index), w, keys).rels
    ensures var row := UpsertRels(LookupOf(w.index), w, keys).rels[k];
            if k in w.rels && w.rels[k].review in {Confirmed, Rejected} then row.review == w.rels[k].review
            else row.review == if StrongMatch(w.index, k.tenant, k.entity, k.account) then Confirmed else NeedsReview
  {
    HandledRows(LookupOf(w.index), w, keys, k);
    MatchConfirmsExactlyWhenStrong(w.index, k.tenant, k.entity, k.account);
  }

  /** The evidence of a handled row is its signal, and its confidence reaches the minimum exactly on a strong match. */
  lemma HandledConfidence(w: World, keys: seq<RelKey>, k: RelKey)
    requires k in keys && k.account in MatchOf(w.index, k.tenant, k.entity).accounts
    ensures var rels := UpsertRels(LookupOf(w.index), w, keys).rels;
            && k in rels && rels[k].evidence == [k.signal]
            && (rels[k].confidence >= MINIMUM_CONFIDENCE <==> StrongMatch(w.index, k.tenant, k.entity, k.account))
  {
    HandledRows(LookupOf(w.index), w, keys, k);
    MatchConfirmsExactlyWhenStrong(w.index, k.tenant, k.entity, k.account);
  }

  /**
   A resolution rewrites the confidence of a confirmed row; it stays above the minimum exactly when the match is
   strong today.
   */
  lemma ConfirmedKeepsFloorExactlyWhenStrong(w: World, keys: seq<RelKey>, k: RelKey)
    requires k in keys && k.account in MatchOf(w.index, k.tenant, k.entity).accounts
    requires k in w.rels && w.rels[k].review == Confirmed
    ensures k in UpsertRels(LookupOf(w.index), w, keys).rels
        && UpsertRels(LookupOf(w.index), w, keys).rels[k].review == Confirmed
    ensures UpsertRels(LookupOf(w.index), w, keys).rels[k].confidence >= MINIMUM_CONFIDENCE
        <==> StrongMatch(w.index, k.tenant, k.entity, k.account)
  {
    HandledRows(LookupOf(w.index), w, keys, k);
    MatchConfirmsExactlyWhenStrong(w.index, k.tenant, k.entity, k.account);
  }

  /******* Resolving again *******/

  /** A row as a resolution leaves it: up to date, and in somebody's queue if it needs a review. */
  predicate Settled(lookup: Lookup, w: World, k: RelKey) {
    && k in w.rels && w.rels[k] == ResolvedRel(lookup, w, k)
    && (w.rels[k].review == NeedsReview ==> HasActive(w.items, k))
  }

  lemma EnsureItemHasActive(items: seq<ReviewItem>, rel: RelKey, other: RelKey)
    ensures HasActive(EnsureItem(items, rel), rel)
    ensures HasActive(items, other) ==> HasActive(EnsureItem(items, rel), other)
  {
    var after := EnsureItem(items, rel);
    if !HasActive(items, rel) {
      assert after[|items|] == ReviewItem(rel, WorkItems.Detected);
    }
    if HasActive(items, other) {
      var i :| 0 <= i < |items| && items[i].rel == other && Active(items[i].status);
      assert after[i] == items[i];
    }
  }

  lemma UpsertSettles(lookup: Lookup, w: World, k: RelKey, other: RelKey)
    ensures Settled(lookup, UpsertRel(lookup, w, k), k)
    ensures Settled(lookup, w, other) ==> Settled(lookup, UpsertRel(lookup, w, k), other)
  {
    ResolvedRelTwice(lookup, w, k, k);
    ResolvedRelTwice(lookup, w, other, k);
    EnsureItemHasActive(w.items, k, other);
    if Settled(lookup, w, other) && other == k {
      assert UpsertRel(lookup, w, k).rels[k] == ResolvedRel(lookup, w, k);
    }
  }

  lemma UpsertOfSettled(lookup: Lookup, w: World, k: RelKey)
    requires Settled(lookup, w, k)
    ensures UpsertRel(lookup, w, k) == w
  {
    assert w.rels[k := w.rels[k]] == w.rels;
  }

  lemma {:induction false} BatchSettles(lookup: Lookup, w: World, keys: seq<RelKey>, k: RelKey)
    requires k in keys
    ensures Settled(lookup, UpsertRels(lookup, w, keys), k)
  {
    var before, last := keys[..|keys| - 1], keys[|keys| - 1];
    if k != last {
      assert keys == before + [last];
      BatchSettles(lookup, w, before, k);
    }
    UpsertSettles(lookup, UpsertRels(lookup, w, before), last, k);
  }

  lemma {:induction false} BatchOfSettled(lookup: Lookup, w: World, keys: seq<RelKey>)
    requires forall k: RelKey :: k in keys ==> Settled(lookup, w, k)
    ensures UpsertRels(lookup, w, keys) == w
  {
    if keys != [] {
      BatchOfSettled(lookup, w, keys[..|keys| - 1]);
      UpsertOfSettled(lookup, w, keys[|keys| - 1]);
    }
  }

  /**
   Resolving the same signal again with unchanged identifiers changes nothing: no new relationship, audit row or
   review item.
   */
  lemma ResolveTwice(w: World, tenant: string, signal: string, incoming: Signal, entities: seq<string>, order: Order)
    ensures var once := ResolveEntities(w, tenant, signal, incoming, entities, order);
            ResolveEntities(once, tenant, signal, incoming, entities, order) == once
  {
    var keys := KeysOf(LookupOf(w.index), tenant, signal, entities, order);
    ResolveKeysTwice(LookupOf(w.index), w, signal, incoming, keys);
  }

  lemma ResolveKeysTwice(lookup: Lookup, w: World, signal: string, incoming: Signal, keys: seq<RelKey>)
    ensures var once := ResolveKeys(lookup, w, signal, incoming, keys);
            once.index == w.index && ResolveKeys(lookup, once, signal, incoming, keys) == once
  {
    if !Raises(lookup, w, keys) {
      var once := ResolveKeys(lookup, w, signal, incoming, keys);
      OnlyHandledRowsChange(lookup, w, keys);
      forall k: RelKey | k in keys
        ensures Settled(lookup, once, k)
      {
        BatchSettles(lookup, w, keys, k);
        SignalsDoNotMatter(lookup, UpsertRels(lookup, w, keys), once, k);
      }
      BatchOfSettled(lookup, once, keys);
      assert once.signals[signal := LinkedSignal(incoming, once.rels, keys)] == once.signals;
    }
  }

  lemma SignalsDoNotMatter(lookup: Lookup, w: World, v: World, k: RelKey)
    requires v.index == w.index && v.rels == w.rels
    ensures ResolvedRel(lookup, v, k) == ResolvedRel(lookup, w, k)
  {
  }

  /** Every handled row that still needs a review is in the queue afterwards. */
  lemma UnresolvedAreQueued(w: World, tenant: string, signal: string, incoming: Signal, entities: seq<string>,
                            order: Order, k: RelKey)
    requires var keys := KeysOf(LookupOf(w.index), tenant, signal, entities, order);
             k in keys && !Raises(LookupOf(w.index), w, keys)
    ensures var after := ResolveEntities(w, tenant, signal, incoming, entities, order);
            k in after.rels && (after.rels[k].review == NeedsReview ==> HasActive(after.items, k))
  {
    BatchSettles(LookupOf(w.index), w, KeysOf(LookupOf(w.index), tenant, signal, entities, order), k);
  }

  /******* Runs *******/

  /** A new identifier index stands for any upserts between; a moved item for anything the work-item endpoints do. */
  datatype Step =
    | ResolveSignal(tenant: string, signal: string, incoming: Signal, entities: seq<string>, order: Order)
    | ReviewRel(rel: RelKey, action: Action, actor: string)
    | Reindex(index: Index)
    | MoveItem(item: nat, to: WorkItems.Status)

  function Next(w: World, step: Step): World {
    match step
    case ResolveSignal(tenant, signal, incoming, entities, order) => ResolveEntities(w, tenant, signal, incoming,
        entities, order)
    case ReviewRel(rel, action, actor) => DoReview(w, rel, action, actor).1
    case Reindex(index) => w.(index := index)
    case MoveItem(i, to) => if i < |w.items| then w.(items := w.items[i := w.items[i].(status := to)]) else w
  }

  ghost predicate StepOk(step: Step) { step.ResolveSignal? ==> IsOrder(step.order) }

  const Initial := World(map[], map[], [], [], map[])

  ghost predicate IsRun(worlds: seq<World>, steps: seq<Step>) {
    && |worlds| == |steps| + 1
    && worlds[0] == Initial
    && (forall i :: 0 <= i < |steps| ==> StepOk(steps[i]) && worlds[i + 1] == Next(worlds[i], steps[i]))
  }

  /******* Every row has evidence, and one candidate audit row *******/

  function CandidateEvents(audit: seq<AuditEvent>, k: RelKey): nat {
    if audit == [] then 0
    else CandidateEvents(audit[..|audit| - 1], k) + if audit[|audit| - 1] == AuditEvent(k, "create_candidate") then 1
        else 0
  }

  lemma CandidateEventsNext(audit: seq<AuditEvent>, e: AuditEvent, k: RelKey)
    ensures CandidateEvents(audit + [e], k) == CandidateEvents(audit, k)
        + if e == AuditEvent(k, "create_candidate") then 1 else 0
  {
    assert (audit + [e])[..|audit|] == audit;
  }

  predicate RowOk(row: Rel) { row.evidence != [] && (row.review == Confirmed ==> row.confirmedBy.Some?) }

  ghost predicate KeyOk(w: World, k: RelKey) {
    && (k in w.rels ==> RowOk(w.rels[k]))
    && CandidateEvents(w.audit, k) == if k in w.rels then 1 else 0
  }

  lemma UpsertKeepsKeyOk(lookup: Lookup, w: World, other: RelKey, k: RelKey)
    requires KeyOk(w, k)
    ensures KeyOk(UpsertRel(lookup, w, other), k)
  {
    CandidateEventsNext(w.audit, AuditEvent(other, "create_candidate"), k);
  }

  lemma {:induction false} BatchKeepsKeyOk(lookup: Lookup, w: World, keys: seq<RelKey>, k: RelKey)
    requires KeyOk(w, k)
    ensures KeyOk(UpsertRels(lookup, w, keys), k)
  {
    if keys != [] {
      BatchKeepsKeyOk(lookup, w, keys[..|keys| - 1], k);
      UpsertKeepsKeyOk(lookup, UpsertRels(lookup, w, keys[..|keys| - 1]), keys[|keys| - 1], k);
    }
  }

  lemma ReviewKeepsKeyOk(w: World, rel: RelKey, action: Action, actor: string, k: RelKey)
    requires KeyOk(w, k)
    ensures KeyOk(DoReview(w, rel, action, actor).1, k)
  {
    CandidateEventsNext(w.audit, AuditEvent(rel, ActionName(action)), k);
    assert |ActionName(action)| != |"create_candidate"|;
  }

  /**
   Over every run of resolutions, reviews, identifier changes and item moves: every relationship has evidence and
   exactly one candidate audit row, and every confirmed one names who confirmed it.
   */
  lemma {:induction false} EveryRowIsAccountedFor(worlds: seq<World>, steps: seq<Step>, n: nat, k: RelKey)
    requires IsRun(worlds, steps) && n <= |steps|
    ensures KeyOk(worlds[n], k)
  {
    if n > 0 {
      EveryRowIsAccountedFor(worlds, steps, n - 1, k);
      var w, step := worlds[n - 1], steps[n - 1];
      match step
      case ResolveSignal(tenant, signal, incoming, entities, order) =>
        BatchKeepsKeyOk(LookupOf(w.index), w, KeysOf(LookupOf(w.index), tenant, signal, entities, order), k);
      case ReviewRel(rel, action, actor) => ReviewKeepsKeyOk(w, rel, action, actor, k);
      case Reindex(_) =>
      case MoveItem(_, _) =>
    }
  }

  /******* Why a row is confirmed *******/

  predicate IsConfirmed(w: World, k: RelKey) { k in w.rels && w.rels[k].review == Confirmed }

  /** What a step says about one relationship. */
  ghost function DecisionOf(w: World, step: Step, k: RelKey): Decision {
    match step
    case ResolveSignal(tenant, signal, _, entities, order) =>
      if Raises(LookupOf(w.index), w, KeysOf(LookupOf(w.index), tenant, signal, entities, order)) then Neither
      else if k.tenant == tenant && k.signal == signal && k.entity != "" && NamesEntity(entities, k.entity)
              && (k in w.rels ==> w.rels[k].review == NeedsReview)
                  && StrongMatch(w.index, tenant, k.entity, k.account) then Grants
      else Neither
    case ReviewRel(rel, action, _) =>
      if rel != k || k !in w.rels then Neither else if action == Confirm then Grants else Withdraws
    case Reindex(_) => Neither
    case MoveItem(_, _) => Neither
  }

  lemma StrongIsAMatch(index: Index, tenant: string, entity: string, account: AccountId)
    requires StrongMatch(index, tenant, entity, account)
    ensures account in MatchOf(index, tenant, entity).accounts
  {
    var found := Registered(index, LookupKeys(tenant, entity));
    assert found[0] in found;
  }

  lemma ResolveCarries(w: World, step: Step, k: RelKey)
    requires step.ResolveSignal? && StepOk(step)
    ensures IsConfirmed(Next(w, step), k) <==> Carries(IsConfirmed(w, k), DecisionOf(w, step, k))
  {
    var keys := KeysOf(LookupOf(w.index), step.tenant, step.signal, step.entities, step.order);
    KeysOfExactly(LookupOf(w.index), step.tenant, step.signal, step.entities, step.order, k);
    if k in keys {
      ResolutionDecides(w, keys, k);
    } else {
      OnlyHandledRowsChange(LookupOf(w.index), w, keys);
      if DecisionOf(w, step, k) == Grants {
        StrongIsAMatch(w.index, k.tenant, k.entity, k.account);
      }
    }
  }

  lemma StepCarries(w: World, step: Step, k: RelKey)
    requires StepOk(step) && KeyOk(w, k)
    ensures IsConfirmed(Next(w, step), k) <==> Carries(IsConfirmed(w, k), DecisionOf(w, step, k))
  {
    if step.ResolveSignal? {
      ResolveCarries(w, step, k);
    }
  }

  ghost function Decisions(worlds: seq<World>, steps: seq<Step>, k: RelKey): seq<Decision>
    requires |worlds| == |steps| + 1
  {
    seq(|steps|, i requires 0 <= i < |steps| => DecisionOf(worlds[i], steps[i], k))
  }

  /**
   A relationship is confirmed exactly while some confirmation of it stands: a reviewer's, or a resolution that found
   a strong match for an undecided row, with no rejection, reopening or re-scoping by a reviewer since. Nothing the
   resolver does ever withdraws one.
   */
  lemma {:induction false} ConfirmedExactlyWhileConfirmationStands(worlds: seq<World>, steps: seq<Step>, n: nat,
                                                                   k: RelKey)
    requires IsRun(worlds, steps) && n <= |steps|
    ensures IsConfirmed(worlds[n], k) <==> Stands(Decisions(worlds, steps, k), n)
  {
    if n > 0 {
      ConfirmedExactlyWhileConfirmationStands(worlds, steps, n - 1, k);
      EveryRowIsAccountedFor(worlds, steps, n - 1, k);
      StepCarries(worlds[n - 1], steps[n - 1], k);
      StandsNext(Decisions(worlds, steps, k), n - 1);
    }
  }

  /******* One active review item per relationship *******/

  predicate OneActive(items: seq<ReviewItem>) {
    forall i, j :: 0 <= i < j < |items| && Active(items[i].status) && Active(items[j].status) ==>
        items[i].rel != items[j].rel
  }

  /** With at most one active item each, no resolution raises. */
  lemma OneActiveNeverRaises(lookup: Lookup, w: World, keys: seq<RelKey>)
    requires OneActive(w.items)
    ensures !Raises(lookup, w, keys)
  {
  }

  lemma {:induction false} BatchKeepsOneActive(lookup: Lookup, w: World, keys: seq<RelKey>)
    requires OneActive(w.items)
    ensures OneActive(UpsertRels(lookup, w, keys).items)
  {
    if keys != [] {
      BatchKeepsOneActive(lookup, w, keys[..|keys| - 1]);
    }
  }

  /** Some other active item asks for the same review. */
  predicate ActiveElsewhere(items: seq<ReviewItem>, i: nat)
    requires i < |items|
  {
    exists j :: 0 <= j < |items| && j != i && items[j].rel == items[i].rel && Active(items[j].status)
  }

  /** Moving an item makes a second active one exactly when it becomes active while another one is. */
  lemma MoveKeepsOneActiveExactlyWhen(items: seq<ReviewItem>, i: nat, to: WorkItems.Status)
    requires i < |items| && OneActive(items)
    ensures OneActive(items[i := items[i].(status := to)]) <==> !(Active(to) && ActiveElsewhere(items, i))
  {
    var after := items[i := items[i].(status := to)];
    if Active(to) && ActiveElsewhere(items, i) {
      var j :| 0 <= j < |items| && j != i && items[j].rel == items[i].rel && Active(items[j].status);
      assert after[j] == items[j] && after[i].rel == items[i].rel;
    }
  }

  /** A work-item step that does not bring an inactive item back while the same review has an active one. */
  predicate NoRevival(w: World, step: Step) {
    step.MoveItem? && step.item < |w.items| && Active(step.to) ==> !ActiveElsewhere(w.items, step.item)
  }

  lemma NextKeepsOneActive(w: World, step: Step)
    requires OneActive(w.items) && NoRevival(w, step)
    ensures OneActive(Next(w, step).items)
  {
    match step
    case ResolveSignal(tenant, signal, incoming, entities, order) =>
      BatchKeepsOneActive(LookupOf(w.index), w, KeysOf(LookupOf(w.index), tenant, signal, entities, order));
    case ReviewRel(_, _, _) =>
    case Reindex(_) =>
    case MoveItem(i, to) =>
      if i < |w.items| {
        MoveKeepsOneActiveExactlyWhen(w.items, i, to);
      }
  }

  /** A step keeps one active item each exactly when it revives none. */
  lemma NextKeepsOneActiveExactlyWhen(w: World, step: Step)
    requires OneActive(w.items)
    ensures OneActive(Next(w, step).items) <==> NoRevival(w, step)
  {
    if step.MoveItem? && step.item < |w.items| {
      MoveKeepsOneActiveExactlyWhen(w.items, step.item, step.to);
    } else {
      NextKeepsOneActive(w, step);
    }
  }

  ghost predicate OneActiveSoFar(worlds: seq<World>, n: nat)
    requires n < |worlds|
  {
    forall m :: 0 <= m <= n ==> OneActive(worlds[m].items)
  }

  ghost predicate NoneRevived(worlds: seq<World>, steps: seq<Step>, n: nat)
    requires |worlds| == |steps| + 1 && n <= |steps|
  {
    forall m :: 0 <= m < n ==> NoRevival(worlds[m], steps[m])
  }

  lemma OneActiveSoFarNext(worlds: seq<World>, steps: seq<Step>, n: nat)
    requires |worlds| == |steps| + 1 && n < |steps|
    ensures OneActiveSoFar(worlds, n + 1) <==> OneActiveSoFar(worlds, n) && OneActive(worlds[n + 1].items)
    ensures NoneRevived(worlds, steps, n + 1) <==> NoneRevived(worlds, steps, n) && NoRevival(worlds[n], steps[n])
  {
  }

  /**
   In every run each relationship has had at most one active review item so far exactly when no step so far was a
   revival.
   */
  lemma OneActiveExactlyWhenNoneRevived(worlds: seq<World>, steps: seq<Step>, n: nat)
    requires IsRun(worlds, steps) && n <= |steps|
    ensures OneActiveSoFar(worlds, n) <==> NoneRevived(worlds, steps, n)
  {
    for i := 0 to n
      invariant OneActiveSoFar(worlds, i) <==> NoneRevived(worlds, steps, i)
    {
      OneActiveSoFarNext(worlds, steps, i);
      if OneActiveSoFar(worlds, i) {
        NextKeepsOneActiveExactlyWhen(worlds[i], steps[i]);
      }
    }
  }

  /** Resolutions and reviews never give a relationship a second active review item, and so no resolution raises. */
  lemma {:induction false} AtMostOneActiveItem(worlds: seq<World>, steps: seq<Step>, n: nat)
    requires IsRun(worlds, steps) && n <= |steps|
    requires forall i :: 0 <= i < n ==> NoRevival(worlds[i], steps[i])
    ensures OneActive(worlds[n].items)
    ensures n < |steps| && steps[n].ResolveSignal? ==>
              var s := steps[n];
              worlds[n + 1] == ResolvedKeys(LookupOf(worlds[n].index), worlds[n], s.signal, s.incoming,
                                            KeysOf(LookupOf(worlds[n].index), s.tenant, s.signal, s.entities, s.order))
  {
    if n > 0 {
      AtMostOneActiveItem(worlds, steps, n - 1);
      NextKeepsOneActive(worlds[n - 1], steps[n - 1]);
    }
    if n < |steps| && steps[n].ResolveSignal? {
      var s := steps[n];
      OneActiveNeverRaises(LookupOf(worlds[n].index), worlds[n],
                           KeysOf(LookupOf(worlds[n].index), s.tenant, s.signal, s.entities, s.order));
    }
  }

  /**
   Dismissing the review item of an unresolved row, resolving the signal again and reopening the dismissed item,
   all of which the endpoints accept, leaves two active items: the next resolution of that signal raises and changes
   nothing, so the one after it raises too, until one of the items is ended.
   */
  lemma RevivedItemBlocksResolution(w: World, dismissed: World, resolved: World, revived: World, s: Step,
                                    keys: seq<RelKey>, k: RelKey, i: nat)
    requires s.ResolveSignal? && keys == KeysOf(LookupOf(w.index), s.tenant, s.signal, s.entities, s.order)
    requires k in keys && ResolvedRel(LookupOf(w.index), w, k).review == NeedsReview
    requires OneActive(w.items) && i < |w.items| && w.items[i].rel == k && Active(w.items[i].status)
    requires dismissed == Next(w, MoveItem(i, WorkItems.Dismissed))
    requires resolved == Next(dismissed, s)
    requires revived == Next(resolved, MoveItem(i, WorkItems.Triaged))
    ensures WorkItems.NextStatus(w.items[i].status, WorkItems.Dismiss) == Some(WorkItems.Dismissed)
    ensures WorkItems.NextStatus(WorkItems.Dismissed, WorkItems.Reopen) == Some(WorkItems.Triaged)
    ensures Raises(LookupOf(revived.index), revived, keys) && Next(revived, s) == revived
  {
    DismissalIsReversible(w.items[i].status);
    MoveFacts(w, i, WorkItems.Dismissed);
    ResolvesAs(dismissed, s, keys);
    MoveFacts(resolved, i, WorkItems.Triaged);
    RevivedIsSecond(LookupOf(w.index), w, dismissed, keys, k, i, revived);
    RaisingChangesNothing(revived, s, keys);
  }

  lemma DismissalIsReversible(status: WorkItems.Status)
    ensures Active(status) ==> WorkItems.NextStatus(status, WorkItems.Dismiss) == Some(WorkItems.Dismissed)
    ensures WorkItems.NextStatus(WorkItems.Dismissed, WorkItems.Reopen) == Some(WorkItems.Triaged)
  {
  }

  lemma MoveFacts(w: World, i: nat, to: WorkItems.Status)
    ensures var moved := Next(w, MoveItem(i, to));
            && moved.index == w.index && moved.rels == w.rels && moved.audit == w.audit && moved.signals == w.signals
            && moved.items == if i < |w.items| then w.items[i := ReviewItem(w.items[i].rel, to)] else w.items
  {
  }

  lemma RaisingChangesNothing(w: World, s: Step, keys: seq<RelKey>)
    requires s.ResolveSignal? && keys == KeysOf(LookupOf(w.index), s.tenant, s.signal, s.entities, s.order)
        && Raises(LookupOf(w.index), w, keys)
    ensures Next(w, s) == w
  {
  }

  lemma ResolvesAs(w: World, s: Step, keys: seq<RelKey>)
    requires s.ResolveSignal? && keys == KeysOf(LookupOf(w.index), s.tenant, s.signal, s.entities, s.order)
        && OneActive(w.items)
    ensures var w', resolved := Next(w, s), UpsertRels(LookupOf(w.index), w, keys);
            w'.index == w.index && w'.rels == resolved.rels && w'.items == resolved.items
  {
    OneActiveNeverRaises(LookupOf(w.index), w, keys);
    OnlyHandledRowsChange(LookupOf(w.index), w, keys);
  }

  lemma RevivedIsSecond(lookup: Lookup, w: World, dismissed: World, keys: seq<RelKey>, k: RelKey, i: nat,
                        revived: World)
    requires k in keys && ResolvedRel(lookup, w, k).review == NeedsReview && i < |w.items| && w.items[i].rel == k
    requires dismissed == w.(items := w.items[i := ReviewItem(k, WorkItems.Dismissed)])
    requires var items := UpsertRels(lookup, dismissed, keys).items;
             revived.items == if i < |items| then items[i := ReviewItem(items[i].rel, WorkItems.Triaged)] else items
    requires revived.index == w.index && revived.rels == UpsertRels(lookup, dismissed, keys).rels
    ensures Raises(lookup, revived, keys)
  {
    SignalsDoNotMatter(lookup, w, dismissed, k);
    NewItemAfterDismissal(lookup, dismissed, keys, k, i);
    var items := UpsertRels(lookup, dismissed, keys).items;
    var j :| 0 <= j < |items| && j != i && items[j].rel == k && Active(items[j].status);
    TwoMakesTwo(revived.items, k, i, j);
    OnlyHandledRowsChange(lookup, dismissed, keys);
    ResolvedRelStays(lookup, dismissed, keys, k);
    SignalsDoNotMatter(lookup, UpsertRels(lookup, dismissed, keys), revived, k);
  }

  lemma TwoMakesTwo(items: seq<ReviewItem>, k: RelKey, i: nat, j: nat)
    requires i < |items| && j < |items| && i != j
    requires items[i].rel == items[j].rel == k && Active(items[i].status) && Active(items[j].status)
    ensures TwoActive(items, k)
  {
    if i > j {
      assert items[j].rel == items[i].rel == k;
    }
  }

  lemma NewItemAfterDismissal(lookup: Lookup, w: World, keys: seq<RelKey>, k: RelKey, i: nat)
    requires k in keys && ResolvedRel(lookup, w, k).review == NeedsReview && i < |w.items| && w.items[i].rel == k
        && !Active(w.items[i].status)
    ensures var items := UpsertRels(lookup, w, keys).items;
            && i < |items| && items[i] == w.items[i]
            && exists j :: 0 <= j < |items| && j != i && items[j].rel == k && Active(items[j].status)
  {
    BatchSettles(lookup, w, keys, k);
    HandledRows(lookup, w, keys, k);
    ItemsAreAppended(lookup, w, keys);
    var items := UpsertRels(lookup, w, keys).items;
    assert items[i] == items[..|w.items|][i];
  }

  lemma {:induction false} ItemsAreAppended(lookup: Lookup, w: World, keys: seq<RelKey>)
    ensures var items := UpsertRels(lookup, w, keys).items; |w.items| <= |items| && items[..|w.items|] == w.items
  {
    if keys != [] {
      ItemsAreAppended(lookup, w, keys[..|keys| - 1]);
    }
  }

  /******* Whether somebody is asked *******/

  /** Every row that needs a review has an active item. */
  ghost predicate AllQueued(w: World) {
    forall k: RelKey :: k in w.rels && w.rels[k].review == NeedsReview ==> HasActive(w.items, k)
  }

  /** The step reopens a row nobody is asked about, or takes the last active item of a row that needs a review. */
  ghost predicate Drops(w: World, step: Step) {
    match step
    case ResolveSignal(_, _, _, _, _) => false
    case ReviewRel(k, action, _) => action == Reopen && k in w.rels && !HasActive(w.items, k)
    case Reindex(_) => false
    case MoveItem(i, to) =>
      && i < |w.items| && w.items[i].rel in w.rels && w.rels[w.items[i].rel].review == NeedsReview
      && Active(w.items[i].status) && !Active(to) && !ActiveElsewhere(w.items, i)
  }

  lemma {:induction false} BatchKeepsActive(lookup: Lookup, w: World, keys: seq<RelKey>, k: RelKey)
    requires HasActive(w.items, k)
    ensures HasActive(UpsertRels(lookup, w, keys).items, k)
  {
    if keys != [] {
      BatchKeepsActive(lookup, w, keys[..|keys| - 1], k);
      EnsureItemHasActive(UpsertRels(lookup, w, keys[..|keys| - 1]).items, keys[|keys| - 1], k);
    }
  }

  lemma BatchKeepsQueued(lookup: Lookup, w: World, keys: seq<RelKey>)
    requires AllQueued(w)
    ensures AllQueued(UpsertRels(lookup, w, keys))
  {
    var w' := UpsertRels(lookup, w, keys);
    OnlyHandledRowsChange(lookup, w, keys);
    forall k: RelKey | k in w'.rels && w'.rels[k].review == NeedsReview
      ensures HasActive(w'.items, k)
    {
      if k in keys {
        BatchSettles(lookup, w, keys, k);
      } else {
        BatchKeepsActive(lookup, w, keys, k);
      }
    }
  }

  /** Closing one relationship's items leaves the others'. */
  lemma ClosingKeepsOthers(items: seq<ReviewItem>, rel: RelKey, k: RelKey)
    requires k != rel && HasActive(items, k)
    ensures HasActive(ClosedItems(items, rel), k)
  {
    var i :| 0 <= i < |items| && items[i].rel == k && Active(items[i].status);
    assert ClosedItems(items, rel)[i] == items[i];
  }

  lemma ReviewKeepsQueuedExactlyWhen(w: World, step: Step)
    requires step.ReviewRel? && AllQueued(w)
    ensures AllQueued(Next(w, step)) <==> !Drops(w, step)
  {
    var w' := Next(w, step);
    if step.action == Reopen {
      if Drops(w, step) {
        assert w'.rels[step.rel].review == NeedsReview;
      }
    } else {
      forall k: RelKey | k in w'.rels && w'.rels[k].review == NeedsReview
        ensures HasActive(w'.items, k)
      {
        if w' != w {
          ClosingKeepsOthers(w.items, step.rel, k);
        }
      }
    }
  }

  lemma MoveKeepsOtherActive(items: seq<ReviewItem>, i: nat, to: WorkItems.Status, k: RelKey)
    requires i < |items|
    ensures var after := items[i := ReviewItem(items[i].rel, to)];
            if k != items[i].rel then HasActive(after, k) <==> HasActive(items, k)
            else HasActive(after, k) <==> Active(to) || ActiveElsewhere(items, i)
  {
    var after := items[i := ReviewItem(items[i].rel, to)];
    if HasActive(items, k) {
      var j :| 0 <= j < |items| && items[j].rel == k && Active(items[j].status);
      assert j != i ==> after[j] == items[j];
    }
    if HasActive(after, k) {
      var j :| 0 <= j < |after| && after[j].rel == k && Active(after[j].status);
      assert j != i ==> after[j] == items[j];
    }
    if k == items[i].rel && ActiveElsewhere(items, i) {
      var j :| 0 <= j < |items| && j != i && items[j].rel == items[i].rel && Active(items[j].status);
      assert after[j] == items[j];
    }
    if k == items[i].rel && Active(to) {
      assert after[i].rel == k;
    }
  }

  lemma MoveKeepsQueuedExactlyWhen(w: World, i: nat, to: WorkItems.Status)
    requires AllQueued(w)
    ensures AllQueued(Next(w, MoveItem(i, to))) <==> !Drops(w, MoveItem(i, to))
  {
    MoveFacts(w, i, to);
    if i < |w.items| {
      forall k: RelKey
        ensures k != w.items[i].rel ==> (HasActive(Next(w, MoveItem(i, to)).items, k) <==> HasActive(w.items, k))
      {
        MoveKeepsOtherActive(w.items, i, to, k);
      }
      MoveKeepsOtherActive(w.items, i, to, w.items[i].rel);
    }
  }

  /**
   A step from a world where everybody is asked leads to another one exactly when it is neither the reopening of a row
   without an active item nor the end of a needed row's last active item.  No resolution ever is.
   */
  lemma NextKeepsQueuedExactlyWhen(w: World, step: Step)
    requires AllQueued(w)
    ensures AllQueued(Next(w, step)) <==> !Drops(w, step)
  {
    match step
    case ResolveSignal(tenant, signal, _, entities, order) =>
      BatchKeepsQueued(LookupOf(w.index), w, KeysOf(LookupOf(w.index), tenant, signal, entities, order));
    case ReviewRel(_, _, _) => ReviewKeepsQueuedExactlyWhen(w, step);
    case Reindex(_) =>
    case MoveItem(i, to) => MoveKeepsQueuedExactlyWhen(w, i, to);
  }

  ghost predicate QueuedSoFar(worlds: seq<World>, n: nat)
    requires n < |worlds|
  {
    forall m :: 0 <= m <= n ==> AllQueued(worlds[m])
  }

  ghost predicate NoneDropped(worlds: seq<World>, steps: seq<Step>, n: nat)
    requires |worlds| == |steps| + 1 && n <= |steps|
  {
    forall m :: 0 <= m < n ==> !Drops(worlds[m], steps[m])
  }

  lemma SoFarNext(worlds: seq<World>, steps: seq<Step>, n: nat)
    requires |worlds| == |steps| + 1 && n < |steps|
    ensures QueuedSoFar(worlds, n + 1) <==> QueuedSoFar(worlds, n) && AllQueued(worlds[n + 1])
    ensures NoneDropped(worlds, steps, n + 1) <==> NoneDropped(worlds, steps, n) && !Drops(worlds[n], steps[n])
  {
  }

  /** In every run everybody has been asked at every moment so far exactly when no step so far dropped a review. */
  lemma EveryReviewIsQueuedExactlyWhen(worlds: seq<World>, steps: seq<Step>, n: nat)
    requires IsRun(worlds, steps) && n <= |steps|
    ensures QueuedSoFar(worlds, n) <==> NoneDropped(worlds, steps, n)
  {
    for i := 0 to n
      invariant QueuedSoFar(worlds, i) <==> NoneDropped(worlds, steps, i)
    {
      SoFarNext(worlds, steps, i);
      if QueuedSoFar(worlds, i) {
        NextKeepsQueuedExactlyWhen(worlds[i], steps[i]);
      }
    }
  }

  /** A confirmed row whose items a reviewer's confirmation closed is reopened without an item. */
  lemma ReopenAfterConfirmDrops(w: World, k: RelKey, actor: string)
    requires k in w.rels && w.rels[k].evidence != []
    ensures Drops(Next(w, ReviewRel(k, Confirm, actor)), ReviewRel(k, Reopen, actor))
  {
    var items := Next(w, ReviewRel(k, Confirm, actor)).items;
    assert forall i :: 0 <= i < |items| && items[i].rel == k ==> !Active(items[i].status);
  }

  /******* Resolving a signal again, later *******/

  lemma {:induction false} BatchOfKnownAudits(lookup: Lookup, w: World, keys: seq<RelKey>)
    requires forall k: RelKey :: k in keys ==> k in w.rels
    ensures UpsertRels(lookup, w, keys).audit == w.audit && UpsertRels(lookup, w, keys).rels.Keys == w.rels.Keys
  {
    if keys != [] {
      BatchOfKnownAudits(lookup, w, keys[..|keys| - 1]);
    }
  }

  lemma NextKeepsRows(w: World, step: Step)
    ensures forall k: RelKey :: k in w.rels ==> k in Next(w, step).rels
    ensures !step.Reindex? ==> Next(w, step).index == w.index
  {
    if step.ResolveSignal? {
      OnlyHandledRowsChange(LookupOf(w.index), w,
                            KeysOf(LookupOf(w.index), step.tenant, step.signal, step.entities, step.order));
    }
  }

  lemma {:induction false} RowsStay(worlds: seq<World>, steps: seq<Step>, m: nat, n: nat)
    requires IsRun(worlds, steps) && m <= n <= |steps| && forall i :: m <= i < n ==> !steps[i].Reindex?
    ensures worlds[n].index == worlds[m].index && forall k: RelKey :: k in worlds[m].rels ==> k in worlds[n].rels
  {
    if m < n {
      RowsStay(worlds, steps, m, n - 1);
      NextKeepsRows(worlds[n - 1], steps[n - 1]);
    }
  }

  /** The same signal with the same entities; what it says of itself may differ. */
  ghost predicate SameRequest(s: Step, t: Step) {
    && s.ResolveSignal? && t.ResolveSignal?
    && s.tenant == t.tenant && s.signal == t.signal && s.entities == t.entities && s.order == t.order
  }

  /**
   Once a signal has been resolved, resolving it again after any reviews, item moves and other resolutions, with the
   identifiers unchanged, adds no relationship and no audit row at all.
   */
  lemma ResolvedLaterAddsNothing(worlds: seq<World>, steps: seq<Step>, m: nat, n: nat)
    requires IsRun(worlds, steps) && m < n < |steps| && SameRequest(steps[m], steps[n])
    requires forall i :: m < i < n ==> !steps[i].Reindex?
    requires !Raises(LookupOf(worlds[m].index), worlds[m],
                     KeysOf(LookupOf(worlds[m].index), steps[m].tenant, steps[m].signal, steps[m].entities,
                            steps[m].order))
    ensures worlds[n + 1].rels.Keys == worlds[n].rels.Keys && worlds[n + 1].audit == worlds[n].audit
  {
    var lookup, s := LookupOf(worlds[m].index), steps[m];
    var keys := KeysOf(lookup, s.tenant, s.signal, s.entities, s.order);
    OnlyHandledRowsChange(lookup, worlds[m], keys);
    RowsStay(worlds, steps, m + 1, n);
    BatchOfKnownAudits(lookup, worlds[n], keys);
    LaterResolution(worlds[n], steps[n], lookup, keys);
  }

  lemma LaterResolution(w: World, s: Step, lookup: Lookup, keys: seq<RelKey>)
    requires s.ResolveSignal? && lookup == LookupOf(w.index)
        && keys == KeysOf(lookup, s.tenant, s.signal, s.entities, s.order)
    requires UpsertRels(lookup, w, keys).audit == w.audit && UpsertRels(lookup, w, keys).rels.Keys == w.rels.Keys
    ensures Next(w, s).rels.Keys == w.rels.Keys && Next(w, s).audit == w.audit
  {
  }

  /******* An unresolved row exists *******/

  ghost function Listing(s: set<AccountId>): seq<AccountId> {
    if s == {} then [] else var a :| a in s; [a] + Listing(s - {a})
  }

  lemma {:induction false} ListingLists(s: set<AccountId>)
    ensures forall a: AccountId :: a in Listing(s) <==> a in s
    ensures forall i, j :: 0 <= i < j < |Listing(s)| ==> Listing(s)[i] != Listing(s)[j]
  {
    if s != {} {
      var a := Listing(s)[0];
      assert Listing(s) == [a] + Listing(s - {a}) by {
        var b :| b in s && Listing(s) == [b] + Listing(s - {b});
        assert b == a;
      }
      ListingLists(s - {a});
    }
  }

  lemma SomeOrder() returns (order: Order)
    ensures IsOrder(order)
  {
    order := (s: set<AccountId>) => Listing(s);
    forall s: set<AccountId>
      ensures forall a: AccountId :: a in order(s) <==> a in s
      ensures forall i, j :: 0 <= i < j < |order(s)| ==> order(s)[i] != order(s)[j]
    {
      ListingLists(s);
    }
  }

  /** An entity name that can be registered as an alias; "a" is one. */
  predicate Nameable(entity: string) {
    entity != "" && Strip(entity) == entity && Normalize(VerifiedAlias, entity) != ""
  }

  lemma LetterIsNameable()
    ensures Nameable("a")
  {
    NormalNameAgain(["a"]);
  }

  function AliasKey(tenant: string, entity: string): IdKey {
    IdKey(tenant, VerifiedAlias, Normalize(VerifiedAlias, entity))
  }

  /** An index that only knows one name, as an alias nobody verified. */
  function AliasIndex(tenant: string, account: AccountId, entity: string): Index {
    map[AliasKey(tenant, entity) := Identifier(account, entity, false)]
  }

  lemma AliasIsLookedUp(tenant: string, entity: string)
    ensures AliasKey(tenant, entity) in LookupKeys(tenant, entity)
  {
    assert LookupKeys(tenant, entity)[1] == AliasKey(tenant, entity);
  }

  lemma AliasKeysMatch(index: Index, key: IdKey, account: AccountId, found: seq<IdKey>)
    requires index.Keys == {key} && index[key].account == account && key.idType == VerifiedAlias
    requires key in found && forall k: IdKey :: k in found ==> k in index
    ensures MatchOfKeys(index, found).accounts == {account} && MatchOfKeys(index, found).review == NeedsReview
  {
    assert MatchOfKeys(index, found).accounts == {account};
  }

  lemma AliasMatches(tenant: string, account: AccountId, entity: string)
    requires Nameable(entity)
    ensures var m := MatchOf(AliasIndex(tenant, account, entity), tenant, entity);
            m.accounts == {account} && m.review == NeedsReview
  {
    var index := AliasIndex(tenant, account, entity);
    AliasIsLookedUp(tenant, entity);
    AliasKeysMatch(index, AliasKey(tenant, entity), account, Registered(index, LookupKeys(tenant, entity)));
  }

  /** From the empty world, one identifier and one resolution lead to a row that needs a review, with its item. */
  lemma UnresolvedIsReachable(tenant: string, signal: string, incoming: Signal, account: AccountId, entity: string,
                              order: Order)
    requires IsOrder(order) && Nameable(entity)
    ensures var known := Next(Initial, Reindex(AliasIndex(tenant, account, entity)));
            var w := Next(known, ResolveSignal(tenant, signal, incoming, [entity], order));
            var k, lookup := RelKey(tenant, signal, account, entity), LookupOf(w.index);
            && k in KeysOf(lookup, tenant, signal, [entity], order) && ResolvedRel(lookup, w, k).review == NeedsReview
            && w.items == [ReviewItem(k, WorkItems.Detected)] && OneActive(w.items)
  {
    var known := Next(Initial, Reindex(AliasIndex(tenant, account, entity)));
    var lookup := LookupOf(known.index);
    AliasMatches(tenant, account, entity);
    OneUnresolved(known, lookup, RelKey(tenant, signal, account, entity),
                  ResolveSignal(tenant, signal, incoming, [entity], order));
  }

  lemma OneUnresolved(w: World, lookup: Lookup, k: RelKey, s: Step)
    requires s.ResolveSignal? && IsOrder(s.order) && lookup == LookupOf(w.index) && w.rels == map[] && w.items == []
    requires s.tenant == k.tenant && s.signal == k.signal && s.entities == [k.entity] && k.entity != ""
        && Strip(k.entity) == k.entity
    requires lookup(k.tenant, k.entity).accounts == {k.account} && lookup(k.tenant, k.entity).review == NeedsReview
    ensures KeysOf(lookup, s.tenant, s.signal, s.entities, s.order) == [k] && Next(w, s).index == w.index
    ensures ResolvedRel(lookup, Next(w, s), k).review == NeedsReview
    ensures Next(w, s).items == [ReviewItem(k, WorkItems.Detected)] && OneActive(Next(w, s).items)
  {
    OneKey(lookup, k, s.order);
    ResolvesAs(w, s, [k]);
    FirstUnresolved(lookup, w, k, Next(w, s));
  }

  lemma FirstUnresolved(lookup: Lookup, w: World, k: RelKey, w': World)
    requires w.rels == map[] && w.items == [] && lookup(k.tenant, k.entity).review == NeedsReview
    requires w'.rels == UpsertRels(lookup, w, [k]).rels && w'.items == UpsertRels(lookup, w, [k]).items
    ensures ResolvedRel(lookup, w', k).review == NeedsReview
    ensures w'.items == [ReviewItem(k, WorkItems.Detected)] && OneActive(w'.items)
  {
    assert [k][..0] == [];
    assert UpsertRels(lookup, w, [k]) == UpsertRel(lookup, w, k);
  }

  lemma OneEntry(ids: seq<AccountId>, account: AccountId)
    requires account in ids && forall i :: 0 <= i < |ids| ==> ids[i] == account
    requires forall i, j :: 0 <= i < j < |ids| ==> ids[i] != ids[j]
    ensures ids == [account]
  {
    if |ids| > 1 {
      FirstTwoDiffer(ids);
      assert false;
    }
  }

  lemma FirstTwoDiffer(ids: seq<AccountId>)
    requires |ids| > 1 && forall i, j :: 0 <= i < j < |ids| ==> ids[i] != ids[j]
    ensures ids[0] != ids[1]
  {
  }

  lemma OneKey(lookup: Lookup, k: RelKey, order: Order)
    requires IsOrder(order) && lookup(k.tenant, k.entity).accounts == {k.account} && k.entity != ""
        && Strip(k.entity) == k.entity
    ensures KeysOf(lookup, k.tenant, k.signal, [k.entity], order) == [k]
  {
    var ids := order({k.account});
    assert forall i :: 0 <= i < |ids| ==> ids[i] in ids;
    OneEntry(ids, k.account);
    assert [k.entity][..0] == [];
  }
}
