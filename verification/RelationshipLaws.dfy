/**
 What resolution and review do, told by identifier type, review action and row, without the functions of Relationships
 that compute it (btx_platform/intelligence.py, btx_platform/api.py).
 */
module RelationshipLaws {
  import opened Common
  import opened Identifiers
  import opened Identity
  import opened Relationships
  import opened RelationshipRuns
  import WorkItems
  import WorkItemLaws

  /******* Which identifiers an entity name meets *******/

  /** The name is registered as an identifier of the type: any type but a HubSpot id, and a domain only with a dot. */
  ghost predicate Meets(index: Index, tenant: string, entity: string, t: IdType) {
    && t != HubSpotId && (t == Domain ==> '.' in entity)
    && Normalize(t, entity) != "" && IdKey(tenant, t, Normalize(t, entity)) in index
  }

  function KeyAs(tenant: string, entity: string, t: IdType): IdKey { IdKey(tenant, t, Normalize(t, entity)) }

  /** Some type of identifier with that name is the account's. */
  ghost predicate Identified(index: Index, tenant: string, entity: string, account: AccountId) {
    exists t :: Meets(index, tenant, entity, t) && index[KeyAs(tenant, entity, t)].account == account
  }

  lemma LookedUpExactly(tenant: string, entity: string, k: IdKey)
    ensures k in LookupKeys(tenant, entity) <==>
            k == KeyAs(tenant, entity, k.idType) && k.idType != HubSpotId && (k.idType == Domain ==> '.' in entity)
  {
    var keys := LookupKeys(tenant, entity);
    var n := if '.' in entity then 1 else 0;
    assert keys[0] == KeyAs(tenant, entity, LegalName) && keys[1] == KeyAs(tenant, entity, VerifiedAlias);
    assert keys[2 + n] == KeyAs(tenant, entity, Uei) && keys[3 + n] == KeyAs(tenant, entity, CageCode);
    assert keys[4 + n] == KeyAs(tenant, entity, PublicRecipientId);
    assert '.' in entity ==> keys[2] == KeyAs(tenant, entity, Domain);
  }

  /** What is found: exactly the keys the name meets. */
  lemma FoundExactly(index: Index, tenant: string, entity: string)
    ensures var found := Registered(index, LookupKeys(tenant, entity));
            && (forall k: IdKey :: k in found ==>
                k == KeyAs(tenant, entity, k.idType) && Meets(index, tenant, entity, k.idType))
            && (forall t :: Meets(index, tenant, entity, t) ==> KeyAs(tenant, entity, t) in found)
  {
    var found := Registered(index, LookupKeys(tenant, entity));
    forall k: IdKey | k in found
      ensures k == KeyAs(tenant, entity, k.idType) && Meets(index, tenant, entity, k.idType)
    {
      LookedUpExactly(tenant, entity, k);
    }
    forall t | Meets(index, tenant, entity, t)
      ensures KeyAs(tenant, entity, t) in found
    {
      LookedUpExactly(tenant, entity, KeyAs(tenant, entity, t));
    }
  }

  /** Keys found, told by what the name meets. */
  ghost predicate FoundAre(index: Index, tenant: string, entity: string, found: seq<IdKey>) {
    && (forall k: IdKey :: k in found ==>
        k in index && k == KeyAs(tenant, entity, k.idType) && Meets(index, tenant, entity, k.idType))
    && (forall t :: Meets(index, tenant, entity, t) ==> KeyAs(tenant, entity, t) in found)
  }

  lemma AccountsOfFound(index: Index, tenant: string, entity: string, found: seq<IdKey>, account: AccountId)
    requires FoundAre(index, tenant, entity, found)
    ensures account in MatchOfKeys(index, found).accounts <==> Identified(index, tenant, entity, account)
  {
    if account in MatchOfKeys(index, found).accounts {
      var k :| k in found && index[k].account == account;
      assert Meets(index, tenant, entity, k.idType) && index[KeyAs(tenant, entity, k.idType)].account == account;
    }
    if Identified(index, tenant, entity, account) {
      var t :| Meets(index, tenant, entity, t) && index[KeyAs(tenant, entity, t)].account == account;
      assert KeyAs(tenant, entity, t) in found;
    }
  }

  /** An account is among an entity's matches exactly when some identifier the name meets is its own. */
  lemma MatchesExactly(index: Index, tenant: string, entity: string, account: AccountId)
    ensures account in MatchOf(index, tenant, entity).accounts <==> Identified(index, tenant, entity, account)
  {
    FoundExactly(index, tenant, entity);
    AccountsOfFound(index, tenant, entity, Registered(index, LookupKeys(tenant, entity)), account);
  }

  /******* What a match is worth *******/

  /** The names of the types as they are stored; the resolver sorts by them. */
  function TypeName(t: IdType): string {
    match t
    case CageCode => "cage_code"
    case Domain => "domain"
    case HubSpotId => "hubspot_company_id"
    case LegalName => "legal_name"
    case PublicRecipientId => "public_recipient_id"
    case Uei => "uei"
    case VerifiedAlias => "verified_alias"
  }

  /** Their first letters all differ, so the order of the ranks is the alphabetical one. */
  lemma RanksAreAlphabetical(a: IdType, b: IdType)
    ensures TypeRank(a) < TypeRank(b) <==> TypeName(a)[0] < TypeName(b)[0]
    ensures a != b ==> TypeName(a)[0] != TypeName(b)[0]
  {
  }

  /** The alphabetically first type of identifier that the name meets. */
  ghost predicate FirstMet(index: Index, tenant: string, entity: string, t: IdType) {
    Meets(index, tenant, entity, t) && forall u :: Meets(index, tenant, entity, u) ==> TypeName(t)[0] <= TypeName(u)[0]
  }

  /** The name meets identifiers of one account only. */
  ghost predicate Unique(index: Index, tenant: string, entity: string, account: AccountId) {
    forall u :: Meets(index, tenant, entity, u) ==> index[KeyAs(tenant, entity, u)].account == account
  }

  function MethodNamed(t: IdType): Method {
    match t
    case HubSpotId => ExactHubSpotCompanyId
    case Domain => ExactVerifiedDomain
    case LegalName => ExactLegalName
    case VerifiedAlias => AliasMatch
    case CageCode => ExactCageCode
    case Uei => ExactUei
    case PublicRecipientId => ExactPublicIdentifier
  }

  lemma FirstFound(index: Index, tenant: string, entity: string, found: seq<IdKey>, t: IdType)
    requires FoundAre(index, tenant, entity, found) && FirstMet(index, tenant, entity, t)
    ensures found != [] && FirstByType(found) == KeyAs(tenant, entity, t)
  {
    assert KeyAs(tenant, entity, t) in found;
    var first := FirstByType(found);
    RanksAreAlphabetical(t, first.idType);
    RanksAreAlphabetical(first.idType, t);
  }

  /**
   One account with a verified identifier that is no alias first: 0.95 and confirmed; one account otherwise:
   0.72; several: 0.55.
   */
  lemma WorthOfFound(index: Index, tenant: string, entity: string, found: seq<IdKey>, account: AccountId, t: IdType)
    requires FoundAre(index, tenant, entity, found) && FirstMet(index, tenant, entity, t)
    requires Identified(index, tenant, entity, account)
    ensures var m := MatchOfKeys(index, found);
            var strong := Unique(index, tenant, entity, account) && t != VerifiedAlias
                && index[KeyAs(tenant, entity, t)].verified;
            && m.how == (if Unique(index, tenant, entity, account) then MethodNamed(t) else AliasMatch)
            && m.confidence == (if strong then 0.95 else if Unique(index, tenant, entity, account) then 0.72 else 0.55)
            && m.review == (if strong then Confirmed else NeedsReview)
  {
    FirstFound(index, tenant, entity, found, t);
    AccountsOfFound(index, tenant, entity, found, account);
    var accounts := MatchOfKeys(index, found).accounts;
    if Unique(index, tenant, entity, account) {
      assert forall k: IdKey :: k in found ==> index[k].account == account;
      assert accounts == {account};
    } else {
      var u :| Meets(index, tenant, entity, u) && index[KeyAs(tenant, entity, u)].account != account;
      var other := index[KeyAs(tenant, entity, u)].account;
      assert KeyAs(tenant, entity, u) in found;
      assert other in accounts && account in accounts;
      TwoMembers(accounts, account, other);
    }
  }

  lemma TwoMembers(s: set<AccountId>, a: AccountId, b: AccountId)
    requires a in s && b in s && a != b
    ensures |s| != 1
  {
    if |s| == 1 {
      OnlyMember(s, a);
    }
  }

  lemma WorthOfMatch(index: Index, tenant: string, entity: string, account: AccountId, t: IdType)
    requires FirstMet(index, tenant, entity, t) && Identified(index, tenant, entity, account)
    ensures var m := MatchOf(index, tenant, entity);
            var strong := Unique(index, tenant, entity, account) && t != VerifiedAlias
                && index[KeyAs(tenant, entity, t)].verified;
            && m.how == (if Unique(index, tenant, entity, account) then MethodNamed(t) else AliasMatch)
            && m.confidence == (if strong then 0.95 else if Unique(index, tenant, entity, account) then 0.72 else 0.55)
            && m.review == (if strong then Confirmed else NeedsReview)
  {
    FoundExactly(index, tenant, entity);
    WorthOfFound(index, tenant, entity, Registered(index, LookupKeys(tenant, entity)), account, t);
  }

  /******* Resolution *******/

  /** The signal names the entity, and the name meets an identifier of the account. */
  ghost predicate Concerns(w: World, s: Step, k: RelKey)
    requires s.ResolveSignal?
  {
    && k.tenant == s.tenant && k.signal == s.signal && k.entity != "" && NamesEntity(s.entities, k.entity)
    && Identified(w.index, s.tenant, k.entity, k.account)
  }

  /** With at most one active item each, which rows there are after a resolution, and that it touches no others. */
  lemma RowsAfterResolution(w: World, s: Step, k: RelKey)
    requires s.ResolveSignal? && StepOk(s) && OneActive(w.items)
    ensures k in Next(w, s).rels <==> k in w.rels || Concerns(w, s, k)
    ensures k in w.rels && !Concerns(w, s, k) ==> Next(w, s).rels[k] == w.rels[k]
  {
    var keys := KeysOf(LookupOf(w.index), s.tenant, s.signal, s.entities, s.order);
    ConcernedExactly(w, s, k);
    ResolvesAs(w, s, keys);
    OnlyHandledRowsChange(LookupOf(w.index), w, keys);
  }

  lemma ConcernedExactly(w: World, s: Step, k: RelKey)
    requires s.ResolveSignal? && StepOk(s)
    ensures k in KeysOf(LookupOf(w.index), s.tenant, s.signal, s.entities, s.order) <==> Concerns(w, s, k)
  {
    KeysOfExactly(LookupOf(w.index), s.tenant, s.signal, s.entities, s.order, k);
    MatchesExactly(w.index, s.tenant, k.entity, k.account);
  }

  /**
   What the row of a concerned relationship is after a resolution: method and confidence by the identifiers met, the
   status by them too unless it was decided, the signal as evidence, and the system as confirmer if there was none.
   */
  lemma RowAfterResolution(w: World, s: Step, k: RelKey, t: IdType)
    requires s.ResolveSignal? && StepOk(s) && OneActive(w.items) && Concerns(w, s, k)
        && FirstMet(w.index, s.tenant, k.entity, t)
    ensures k in Next(w, s).rels
    ensures var row, unique := Next(w, s).rels[k], Unique(w.index, s.tenant, k.entity, k.account);
            var strong := unique && t != VerifiedAlias && w.index[KeyAs(s.tenant, k.entity, t)].verified;
            var decided := k in w.rels && w.rels[k].review in {Confirmed, Rejected};
            var confirmer := if k in w.rels then w.rels[k].confirmedBy else None;
            && row.how == (if unique then MethodNamed(t) else AliasMatch)
            && row.confidence == (if strong then 0.95 else if unique then 0.72 else 0.55)
            && row.review == (if decided then w.rels[k].review else if strong then Confirmed else NeedsReview)
            && row.evidence == [s.signal]
            && row.confirmedBy == (if row.review == Confirmed && confirmer == None then Some("system") else confirmer)
  {
    var lookup := LookupOf(w.index);
    var keys := KeysOf(lookup, s.tenant, s.signal, s.entities, s.order);
    ConcernedExactly(w, s, k);
    ResolvesAs(w, s, keys);
    HandledRows(lookup, w, keys, k);
    WorthOfMatch(w.index, s.tenant, k.entity, k.account, t);
    ResolvedRowIs(lookup, w, k);
  }

  lemma ResolvedRowIs(lookup: Lookup, w: World, k: RelKey)
    ensures var row, m := ResolvedRel(lookup, w, k), lookup(k.tenant, k.entity);
            var decided := k in w.rels && w.rels[k].review in {Confirmed, Rejected};
            var confirmer := if k in w.rels then w.rels[k].confirmedBy else None;
            && row.how == m.how && row.confidence == m.confidence && row.evidence == [k.signal]
            && row.review == (if decided then w.rels[k].review else m.review)
            && row.confirmedBy == (if row.review == Confirmed && confirmer == None then Some("system") else confirmer)
  {
  }

  /** Entities are handled one after the other, and the accounts of one in their order. */
  lemma HandledInOrder(lookup: Lookup, tenant: string, signal: string, entities: seq<string>, text: string,
                       order: Order)
    ensures var entity := Strip(text);
            var before, after := KeysOf(lookup, tenant, signal, entities, order),
                KeysOf(lookup, tenant, signal, entities + [text], order);
            && before <= after
            && (entity == "" ==> after == before)
            && (entity != "" ==>
                  var accounts := order(lookup(tenant, entity).accounts);
                  && |after| == |before| + |accounts|
                  && forall i :: 0 <= i < |accounts| ==>
                      after[|before| + i] == RelKey(tenant, signal, accounts[i], entity))
  {
    assert (entities + [text])[..|entities|] == entities;
  }

  /**
   The signal row: tied to the first confirmed relationship handled; unlinked when none is; as it came without
   any.
   */
  lemma SignalAfterResolution(w: World, s: Step, i: nat)
    requires s.ResolveSignal? && OneActive(w.items)
    ensures var keys := KeysOf(LookupOf(w.index), s.tenant, s.signal, s.entities, s.order);
            var w' := Next(w, s);
            && s.signal in w'.signals
            && (keys == [] ==> w'.signals[s.signal] == s.incoming)
            && (keys != [] && (forall k: RelKey :: k in keys ==> !IsConfirmed(w', k)) ==>
                  w'.signals[s.signal].scope == Unlinked && w'.signals[s.signal].subject == s.incoming.subject)
            && (i < |keys| && IsConfirmed(w', keys[i]) && (forall j :: 0 <= j < i ==> !IsConfirmed(w', keys[j])) ==>
                  w'.signals[s.signal].scope == SpecificAccount
                      && w'.signals[s.signal].subject == Subject(keys[i].account))
            && (forall other :: other in w.signals && other != s.signal ==>
                other in w'.signals && w'.signals[other] == w.signals[other])
  {
    var keys := KeysOf(LookupOf(w.index), s.tenant, s.signal, s.entities, s.order);
    var rels := UpsertRels(LookupOf(w.index), w, keys).rels;
    ResolvesAs(w, s, keys);
    SignalsAre(w, s, keys);
    LinkedLaw(s.incoming, rels, keys, i);
  }

  lemma SignalsAre(w: World, s: Step, keys: seq<RelKey>)
    requires s.ResolveSignal? && OneActive(w.items)
        && keys == KeysOf(LookupOf(w.index), s.tenant, s.signal, s.entities, s.order)
    ensures Next(w, s).signals
         == w.signals[s.signal := LinkedSignal(s.incoming, UpsertRels(LookupOf(w.index), w, keys).rels, keys)]
  {
    OneActiveNeverRaises(LookupOf(w.index), w, keys);
  }

  predicate ConfirmedIn(rels: map<RelKey, Rel>, k: RelKey) { k in rels && rels[k].review == Confirmed }

  lemma LinkedLaw(incoming: Signal, rels: map<RelKey, Rel>, keys: seq<RelKey>, i: nat)
    ensures var linked := LinkedSignal(incoming, rels, keys);
            && (keys == [] ==> linked == incoming)
            && (keys != [] && (forall k: RelKey :: k in keys ==> !ConfirmedIn(rels, k)) ==>
                  linked.scope == Unlinked && linked.subject == incoming.subject)
            && (i < |keys| && ConfirmedIn(rels, keys[i]) && (forall j :: 0 <= j < i ==> !ConfirmedIn(rels, keys[j])) ==>
                  linked.scope == SpecificAccount && linked.subject == Subject(keys[i].account))
  {
    if forall k: RelKey :: k in keys ==> !ConfirmedIn(rels, k) {
      NoneConfirmed(rels, keys);
    }
    if i < |keys| && ConfirmedIn(rels, keys[i]) && forall j :: 0 <= j < i ==> !ConfirmedIn(rels, keys[j]) {
      FirstConfirmedAt(rels, keys, i);
    }
  }

  lemma {:induction false} NoneConfirmed(rels: map<RelKey, Rel>, keys: seq<RelKey>)
    requires forall k: RelKey :: k in keys ==> !ConfirmedIn(rels, k)
    ensures FirstConfirmed(rels, keys) == None
  {
    if keys != [] {
      assert keys[0] in keys;
      NoneConfirmed(rels, keys[1..]);
    }
  }

  lemma {:induction false} FirstConfirmedAt(rels: map<RelKey, Rel>, keys: seq<RelKey>, i: nat)
    requires i < |keys| && ConfirmedIn(rels, keys[i])
    requires forall j :: 0 <= j < i ==> !ConfirmedIn(rels, keys[j])
    ensures FirstConfirmed(rels, keys) == Some(keys[i])
  {
    if i > 0 {
      FirstConfirmedAt(rels, keys[1..], i - 1);
    }
  }

  /******* Review *******/

  /** An item is active exactly while it can still be dismissed. */
  lemma ActiveExactlyWhile(s: WorkItems.Status)
    ensures Active(s) <==> WorkItemLaws.MayLeave(s, WorkItems.Dismiss)
  {
  }

  /** When a review is refused, and what it does to the row, action by action. */
  lemma ReviewOfRow(w: World, k: RelKey, a: Action, actor: string)
    ensures var (reply, w') := DoReview(w, k, a, actor);
            && (reply == NotFound <==> k !in w.rels)
            && (reply == NoEvidence <==> k in w.rels && a == Confirm && |w.rels[k].evidence| == 0)
            && (reply != Ok ==> w' == w)
            && (reply == Ok ==>
                  && w'.rels.Keys == w.rels.Keys && (forall o: RelKey :: o in w.rels && o != k ==>
                                                     w'.rels[o] == w.rels[o])
                  && w'.index == w.index
                  && var row, row' := w.rels[k], w'.rels[k];
                  && row'.review == (if a == Confirm then Confirmed else if a == Reopen then NeedsReview else Rejected)
                  && row'.evidence == row.evidence
                  && row'.confirmedBy == (if a == Confirm then Some(actor) else row.confirmedBy)
                  && row'.confidence == (if a == Confirm && row.confidence < 0.80 then 0.80 else row.confidence)
                  && row'.how == (if a == Confirm && row.how == AliasMatch then ManualConfirmation else row.how))
  {
  }

  /** What it does to the signal, the audit and the review items. */
  lemma ReviewAround(w: World, k: RelKey, a: Action, actor: string, id: string)
    requires DoReview(w, k, a, actor).0 == Ok
    ensures var w' := DoReview(w, k, a, actor).1;
            && w'.signals.Keys == w.signals.Keys
            && (id in w.signals && id != k.signal ==> w'.signals[id] == w.signals[id])
            && (k.signal in w.signals ==>
                  && w'.signals[k.signal].scope
                     == (if a == Confirm then SpecificAccount else if a == MarkMarket then Market
                         else if a == MarkProgram then Program else w.signals[k.signal].scope)
                  && w'.signals[k.signal].subject
                     == (if a == Confirm then Subject(k.account) else if a in {MarkMarket, MarkProgram} then Portfolio
                         else w.signals[k.signal].subject))
            && |w'.audit| == |w.audit| + 1 && w'.audit[..|w.audit|] == w.audit && w'.audit[|w.audit|].rel == k
            && w'.audit[|w.audit|].action
               == (match a
                   case Confirm => "confirm"
                   case Reject => "reject"
                   case Reopen => "reopen"
                   case MarkMarket => "mark_market"
                   case MarkProgram => "mark_program")
            && |w'.items| == |w.items|
            && forall i :: 0 <= i < |w.items| ==>
                 && w'.items[i].rel == w.items[i].rel
                 && w'.items[i].status
                    == if a != Reopen && w.items[i].rel == k
                        && w.items[i].status != WorkItems.Dismissed then WorkItems.Closed
                       else w.items[i].status
  {
  }
}
