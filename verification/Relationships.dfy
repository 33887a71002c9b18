/**
 Signal-account relationships: the automatic resolver and the human review
 (btx_platform/intelligence.py, patch_signal_relationship in btx_platform/api.py).
 */
module Relationships {
  import opened Common
  import opened Identifiers
  import opened Identity
  import WorkItems

  datatype Method =
    | ExactPublicIdentifier | ExactUei | ExactCageCode | ExactHubSpotCompanyId | ExactVerifiedDomain | ExactLegalName
    | ManualConfirmation | AliasMatch
  datatype Review = NeedsReview | Confirmed | Rejected

  /** The unique constraint of the table; it also stands for the row's id. */
  datatype RelKey = RelKey(tenant: string, signal: string, account: AccountId, entity: string)
  datatype Rel = Rel(how: Method, confidence: real, review: Review, evidence: seq<string>, confirmedBy: Option<string>)

  datatype Scope = Market | Program | SpecificAccount | Unlinked | OtherScope(name: string)
  datatype Subject = NoSubject | Portfolio | Subject(account: AccountId)
  datatype Signal = Signal(scope: Scope, subject: Subject)

  datatype ReviewItem = ReviewItem(rel: RelKey, status: WorkItems.Status)
  datatype AuditEvent = AuditEvent(rel: RelKey, action: string)

  datatype World = World(index: Index, rels: map<RelKey, Rel>, audit: seq<AuditEvent>, items: seq<ReviewItem>,
                         signals: map<string, Signal>)

  const MINIMUM_CONFIDENCE := 0.80

  predicate Strong(m: Method) { m != AliasMatch }

  function MethodOf(t: IdType): Method {
    match t
    case HubSpotId => ExactHubSpotCompanyId
    case Domain => ExactVerifiedDomain
    case LegalName => ExactLegalName
    case VerifiedAlias => AliasMatch
    case CageCode => ExactCageCode
    case Uei => ExactUei
    case PublicRecipientId => ExactPublicIdentifier
  }

  /******* Matching an entity name *******/

  /** The keys an entity name may be registered under; a name without a dot is no domain. */
  function LookupKeys(tenant: string, entity: string): seq<IdKey> {
    [IdKey(tenant, LegalName, Normalize(LegalName, entity)),
     IdKey(tenant, VerifiedAlias, Normalize(VerifiedAlias, entity))]
    + (if '.' in entity then [IdKey(tenant, Domain, Normalize(Domain, entity))] else [])
    + [IdKey(tenant, Uei, Normalize(Uei, entity)), IdKey(tenant, CageCode, Normalize(CageCode, entity)),
       IdKey(tenant, PublicRecipientId, Normalize(PublicRecipientId, entity))]
  }

  /** The registered ones, in order. */
  function Registered(index: Index, keys: seq<IdKey>): (found: seq<IdKey>)
    ensures forall k: IdKey :: k in found <==> k in keys && k.value != "" && k in index
  {
    if keys == [] then []
    else
      var last := keys[|keys| - 1];
      Registered(index, keys[..|keys| - 1]) + if last.value != "" && last in index then [last] else []
  }

  /** Identifier types in the alphabetical order of their names. */
  function TypeRank(t: IdType): nat {
    match t
    case CageCode => 0
    case Domain => 1
    case HubSpotId => 2
    case LegalName => 3
    case PublicRecipientId => 4
    case Uei => 5
    case VerifiedAlias => 6
  }

  /** The first registered key by type name. */
  function FirstByType(keys: seq<IdKey>): (first: IdKey)
    requires keys != []
    ensures first in keys && forall k: IdKey :: k in keys ==> TypeRank(first.idType) <= TypeRank(k.idType)
  {
    if |keys| == 1 then keys[0]
    else
      var rest := FirstByType(keys[1..]);
      if TypeRank(keys[0].idType) <= TypeRank(rest.idType) then keys[0] else rest
  }

  datatype Match = Match(accounts: set<AccountId>, how: Method, confidence: real, review: Review)

  /** What the registered keys of one entity say: several accounts, or none, only ask for a review. */
  function MatchOfKeys(index: Index, found: seq<IdKey>): Match
    requires forall k: IdKey :: k in found ==> k in index
  {
    var accounts := set k | k in found :: index[k].account;
    if found == [] || |accounts| != 1 then Match(accounts, AliasMatch, 0.55, NeedsReview)
    else
      var first := FirstByType(found);
      var how := MethodOf(first.idType);
      var confidence := if Strong(how) && index[first].verified then 0.95 else 0.72;
      Match(accounts, how, confidence, if Strong(how) && confidence >= MINIMUM_CONFIDENCE then Confirmed
            else NeedsReview)
  }

  function MatchOf(index: Index, tenant: string, entity: string): Match {
    MatchOfKeys(index, Registered(index, LookupKeys(tenant, entity)))
  }

  /** What an identifier index says about each tenant's entity names. */
  type Lookup = (string, string) -> Match

  function LookupOf(index: Index): Lookup { (tenant, entity) => MatchOf(index, tenant, entity) }

  /******* Resolution *******/

  predicate Active(s: WorkItems.Status) {
    s in {WorkItems.Detected, WorkItems.Triaged, WorkItems.Prepared, WorkItems.AwaitingApproval, WorkItems.Approved,
          WorkItems.InProgress}
  }

  predicate HasActive(items: seq<ReviewItem>, rel: RelKey) {
    exists i :: 0 <= i < |items| && items[i].rel == rel && Active(items[i].status)
  }

  function EnsureItem(items: seq<ReviewItem>, rel: RelKey): seq<ReviewItem> {
    if HasActive(items, rel) then items else items + [ReviewItem(rel, WorkItems.Detected)]
  }

  /** The row a resolution leaves: only a confirmed or rejected status is kept. */
  function ResolvedRel(lookup: Lookup, w: World, k: RelKey): Rel {
    var m := lookup(k.tenant, k.entity);
    var decided := k in w.rels && w.rels[k].review in {Confirmed, Rejected};
    var review := if decided then w.rels[k].review else m.review;
    var confirmedBy := if k in w.rels then w.rels[k].confirmedBy else None;
    Rel(m.how, m.confidence, review, [k.signal], if review == Confirmed && confirmedBy == None then Some("system")
        else confirmedBy)
  }

  function UpsertRel(lookup: Lookup, w: World, k: RelKey): World {
    var row := ResolvedRel(lookup, w, k);
    w.(rels := w.rels[k := row],
       audit := if k in w.rels then w.audit else w.audit + [AuditEvent(k, "create_candidate")],
       items := if row.review == NeedsReview then EnsureItem(w.items, k) else w.items)
  }

  function UpsertRels(lookup: Lookup, w: World, keys: seq<RelKey>): World {
    if keys == [] then w else UpsertRel(lookup, UpsertRels(lookup, w, keys[..|keys| - 1]), keys[|keys| - 1])
  }

  /** How sorting puts a set of account ids in order; only the hash of the ids decides, so any order will do. */
  type Order = set<AccountId> -> seq<AccountId>

  ghost predicate IsOrder(order: Order) {
    forall s: set<AccountId> :: (forall a: AccountId :: a in order(s) <==> a in s)
                                && (forall i, j :: 0 <= i < j < |order(s)| ==> order(s)[i] != order(s)[j])
  }

  function KeysFor(tenant: string, signal: string, entity: string, accounts: seq<AccountId>): seq<RelKey> {
    seq(|accounts|, i requires 0 <= i < |accounts| => RelKey(tenant, signal, accounts[i], entity))
  }

  /** The relationships a signal's entities stand for, in the order they are handled. */
  function KeysOf(lookup: Lookup, tenant: string, signal: string, entities: seq<string>, order: Order): seq<RelKey> {
    if entities == [] then []
    else
      var entity := Strip(entities[|entities| - 1]);
      KeysOf(lookup, tenant, signal, entities[..|entities| - 1], order)
      + (if entity == "" then [] else KeysFor(tenant, signal, entity, order(lookup(tenant, entity).accounts)))
  }

  function FirstConfirmed(rels: map<RelKey, Rel>, keys: seq<RelKey>): Option<RelKey> {
    if keys == [] then None
    else if keys[0] in rels && rels[keys[0]].review == Confirmed then Some(keys[0])
    else FirstConfirmed(rels, keys[1..])
  }

  /** The signal names the first confirmed account; with relationships but none confirmed it is unlinked. */
  function LinkedSignal(incoming: Signal, rels: map<RelKey, Rel>, keys: seq<RelKey>): Signal {
    var confirmed := FirstConfirmed(rels, keys);
    if confirmed.Some? then Signal(SpecificAccount, Subject(confirmed.value.account))
    else if keys != [] then incoming.(scope := Unlinked)
    else incoming
  }

  predicate TwoActive(items: seq<ReviewItem>, rel: RelKey) {
    exists i, j :: 0 <= i < j < |items| && items[i].rel == items[j].rel == rel && Active(items[i].status)
        && Active(items[j].status)
  }

  /** Looking for the active review item of a relationship raises when there are two. */
  predicate Raises(lookup: Lookup, w: World, keys: seq<RelKey>) {
    exists k: RelKey :: k in keys && ResolvedRel(lookup, w, k).review == NeedsReview && TwoActive(w.items, k)
  }

  /** A resolution that raises is rolled back. */
  function ResolveKeys(lookup: Lookup, w: World, signal: string, incoming: Signal, keys: seq<RelKey>): World {
    if Raises(lookup, w, keys) then w else ResolvedKeys(lookup, w, signal, incoming, keys)
  }

  function ResolvedKeys(lookup: Lookup, w: World, signal: string, incoming: Signal, keys: seq<RelKey>): World {
    var after := UpsertRels(lookup, w, keys);
    after.(signals := w.signals[signal := LinkedSignal(incoming, after.rels, keys)])
  }

  function ResolveEntities(w: World, tenant: string, signal: string, incoming: Signal, entities: seq<string>,
                           order: Order): World {
    var lookup := LookupOf(w.index);
    ResolveKeys(lookup, w, signal, incoming, KeysOf(lookup, tenant, signal, entities, order))
  }

  /******* Review *******/

  datatype Action = Confirm | Reject | Reopen | MarkMarket | MarkProgram
  datatype Reply = Ok | NotFound | NoEvidence

  function ReviewedRel(row: Rel, a: Action, actor: string): Rel {
    match a
    case Confirm =>
      Rel(if row.how in {ManualConfirmation, AliasMatch} then ManualConfirmation else row.how,
          if row.confidence > MINIMUM_CONFIDENCE then row.confidence else MINIMUM_CONFIDENCE,
          Confirmed, row.evidence, Some(actor))
    case Reopen => row.(review := NeedsReview)
    case _ => row.(review := Rejected)
  }

  function ReviewedSignal(s: Signal, a: Action, account: AccountId): Signal {
    match a
    case Confirm => Signal(SpecificAccount, Subject(account))
    case MarkMarket => Signal(Market, Portfolio)
    case MarkProgram => Signal(Program, Portfolio)
    case _ => s
  }

  function Closed(item: ReviewItem, rel: RelKey): ReviewItem {
    if item.rel == rel && item.status !in {WorkItems.Dismissed, WorkItems.Closed} then
        item.(status := WorkItems.Closed) else item
  }

  function ClosedItems(items: seq<ReviewItem>, rel: RelKey): seq<ReviewItem> {
    seq(|items|, i requires 0 <= i < |items| => Closed(items[i], rel))
  }

  function ActionName(a: Action): string {
    match a
    case Confirm => "confirm"
    case Reject => "reject"
    case Reopen => "reopen"
    case MarkMarket => "mark_market"
    case MarkProgram => "mark_program"
  }

  function DoReview(w: World, k: RelKey, a: Action, actor: string): (Reply, World) {
    if k !in w.rels then (NotFound, w)
    else if a == Confirm && w.rels[k].evidence == [] then (NoEvidence, w)
    else (Ok, w.(rels := w.rels[k := ReviewedRel(w.rels[k], a, actor)],
                 signals := if k.signal in w.signals then
                     w.signals[k.signal := ReviewedSignal(w.signals[k.signal], a, k.account)] else w.signals,
                 audit := w.audit + [AuditEvent(k, ActionName(a))],
                 items := if a == Reopen then w.items else ClosedItems(w.items, k)))
  }
}
