/**
 What an upsert registers, finds and stores, told field by field of the record (btx_platform/intelligence.py).
 */
module IdentityLaws {
  import opened Common
  import opened Identifiers
  import opened Identity
  import opened IdentityTables

  /** The text stands in the record's field of that type; the HubSpot id is the one the account has afterwards. */
  predicate HasField(r: Record, hubspot: string, t: IdType, text: string) {
    match t
    case LegalName => text == Strip(r.name)
    case HubSpotId => text == hubspot
    case Domain => text in r.domains
    case VerifiedAlias => text in r.aliases
    case CageCode => text == r.cageCode
    case Uei => text == r.uei
    case PublicRecipientId => text in r.publicIds
  }

  /** The key of a text under a type, if it has one. */
  predicate Keyed(t: IdType, text: string) { Strip(text) != "" && Normalize(t, text) != "" }

  /******* Registering *******/

  lemma ClaimsAreFields(name: string, hubspot: string, r: Record)
    requires name == Strip(r.name)
    ensures forall c :: c in Claims(name, hubspot, r) ==>
              HasField(r, hubspot, c.idType, c.original) && c.verified == (c.idType != VerifiedAlias)
    ensures forall t, text | HasField(r, hubspot, t, text) && text != "" ::
              Claim(t, text, t != VerifiedAlias) in Claims(name, hubspot, r)
  {
    var claims := Claims(name, hubspot, r);
    forall t, text | HasField(r, hubspot, t, text) && text != ""
      ensures Claim(t, text, t != VerifiedAlias) in claims
    {
      FieldIsClaimed(r, hubspot, t, text);
    }
  }

  lemma InClaims(t: IdType, values: seq<string>, verified: bool, text: string)
    requires text in values
    ensures Claim(t, text, verified) in ClaimsOf(t, values, verified)
  {
    var i :| 0 <= i < |values| && values[i] == text;
    assert ClaimsOf(t, values, verified)[i] == Claim(t, text, verified);
  }

  lemma FieldIsClaimed(r: Record, hubspot: string, t: IdType, text: string)
    requires HasField(r, hubspot, t, text) && text != ""
    ensures Claim(t, text, t != VerifiedAlias) in Claims(Strip(r.name), hubspot, r)
  {
    match t
    case Domain => InClaims(Domain, r.domains, true, text);
    case VerifiedAlias => InClaims(VerifiedAlias, r.aliases, false, text);
    case PublicRecipientId => InClaims(PublicRecipientId, r.publicIds, true, text);
    case _ =>
  }

  /** Some claim of the batch is for the key. */
  ghost predicate Claimed(tenant: string, claims: seq<Claim>, key: IdKey) {
    exists c :: c in claims && Usable(c) && KeyOf(tenant, c) == key
  }

  lemma ClaimedNext(tenant: string, claims: seq<Claim>, last: Claim, key: IdKey)
    ensures Claimed(tenant, claims + [last], key)
        <==> Claimed(tenant, claims, key) || (Usable(last) && KeyOf(tenant, last) == key)
  {
    if Usable(last) && KeyOf(tenant, last) == key {
      assert last in claims + [last];
    }
    if Claimed(tenant, claims, key) {
      var c :| c in claims && Usable(c) && KeyOf(tenant, c) == key;
      assert c in claims + [last];
    }
  }

  /**
   The whole entry a batch leaves under one key: another account's is untouched, a claimed one is the account's
   and only gains verification.
   */
  lemma {:induction false} EntryAfter(index: Index, tenant: string, account: AccountId, claims: seq<Claim>,
                                      key: IdKey, flag: bool)
    requires forall c :: c in claims && KeyOf(tenant, c) == key ==> c.verified == flag
    ensures var after := UpsertAll(index, tenant, account, claims);
            if key in index && index[key].account != account then key in after && after[key] == index[key]
            else if Claimed(tenant, claims, key) then
              && key in after && after[key].account == account
              && after[key].verified == ((key in index && index[key].verified) || flag)
            else (key in after <==> key in index) && (key in index ==> after[key] == index[key])
  {
    if claims != [] {
      var before, last := claims[..|claims| - 1], claims[|claims| - 1];
      assert claims == before + [last];
      EntryAfter(index, tenant, account, before, key, flag);
      ClaimedNext(tenant, before, last, key);
      assert last in claims;
      EntryNext(UpsertAll(index, tenant, account, before), tenant, account, last, key);
    }
  }

  lemma EntryNext(index: Index, tenant: string, account: AccountId, c: Claim, key: IdKey)
    ensures var after := UpsertIdentifier(index, tenant, account, c);
            if !(Usable(c) && KeyOf(tenant, c) == key) || (key in index && index[key].account != account) then
              (key in after <==> key in index) && (key in index ==> after[key] == index[key])
            else
              && key in after && after[key].account == account
              && after[key].verified == ((key in index && index[key].verified) || c.verified)
  {
  }

  /**
   After the upsert of a record with a name, every text of its fields that has a key is registered under its own type.
   The key's owner is who had it before, and otherwise the record's account, for which it is verified unless it is an
   alias; the HubSpot id is the one the account has now.
   */
  lemma UpsertRegisters(s: Store, tenant: string, r: Record, t: IdType, text: string)
    requires StoreOk(s) && Strip(r.name) != "" && Keyed(t, text)
    requires HasField(r, Upsert(s, tenant, r).accounts[Resolve(s, tenant, r)].hubspot, t, text)
    ensures var key, id, after :=
        IdKey(tenant, t, Normalize(t, text)), Resolve(s, tenant, r), Upsert(s, tenant, r).index;
            && key in after
            && after[key].account == (if key in s.index then s.index[key].account else id)
            && (after[key].account == id ==>
                after[key].verified == ((key in s.index && s.index[key].verified) || t != VerifiedAlias))
            && (after[key].account != id ==> after[key] == s.index[key])
  {
    var row := UpdatedAccount(RowFor(s, tenant, r), r);
    var claims, key := Claims(Strip(r.name), row.hubspot, r), IdKey(tenant, t, Normalize(t, text));
    ClaimsAreFields(Strip(r.name), row.hubspot, r);
    assert text != "";
    assert Claim(t, text, t != VerifiedAlias) in claims && KeyOf(tenant, Claim(t, text, t != VerifiedAlias)) == key;
    EntryAfter(s.index, tenant, Resolve(s, tenant, r), claims, key, t != VerifiedAlias);
  }

  /**
   And nothing else is registered: a key that is new or was changed is the account's and stands in its field of
   the record.
   */
  lemma OnlyFieldsAreRegistered(s: Store, tenant: string, r: Record, key: IdKey)
    requires StoreOk(s) && Strip(r.name) != "" && key in Upsert(s, tenant, r).index
    requires key in s.index ==> Upsert(s, tenant, r).index[key] != s.index[key]
    ensures key.tenant == tenant && Upsert(s, tenant, r).index[key].account == Resolve(s, tenant, r)
    ensures exists text :: HasField(r, Upsert(s, tenant, r).accounts[Resolve(s, tenant, r)].hubspot, key.idType, text)
                           && Keyed(key.idType, text) && Normalize(key.idType, text) == key.value
  {
    var row := UpdatedAccount(RowFor(s, tenant, r), r);
    var claims := Claims(Strip(r.name), row.hubspot, r);
    ClaimsAreFields(Strip(r.name), row.hubspot, r);
    EntryAfter(s.index, tenant, Resolve(s, tenant, r), claims, key, key.idType != VerifiedAlias);
    var c :| c in claims && Usable(c) && KeyOf(tenant, c) == key;
    assert HasField(r, row.hubspot, key.idType, c.original);
  }

  /******* The account row *******/

  /**
   The row an upsert leaves: the record's own fields, and of the old row only the legal name and, failing a new
   one, the HubSpot id.
   */
  lemma AccountLaw(s: Store, tenant: string, r: Record)
    requires StoreOk(s) && Strip(r.name) != ""
    ensures var found, id, s' := FindExisting(s, tenant, r), Resolve(s, tenant, r), Upsert(s, tenant, r);
            id in s'.accounts && s'.accounts.Keys == s.accounts.Keys + {id} && (found.Some? ==>
                found.value == id && id in s.accounts) &&
            var row := s'.accounts[id];
            && row.displayName == Strip(r.name)
            && row.legalName == (if found.Some? && s.accounts[id].legalName != "" then s.accounts[id].legalName
                                 else Strip(r.name))
            && row.hubspot == (if r.hubspot != "" then r.hubspot else if found.Some? then s.accounts[id].hubspot
                               else "")
            && row.domain == (if |r.domains| == 0 then "" else Strip(r.domains[0]))
            && row.domains == r.domains && row.aliases == r.aliases && row.publicIds == r.publicIds
            && row.cageCode == r.cageCode && row.uei == r.uei
            && (forall other :: other in s.accounts && other != id ==> s'.accounts[other] == s.accounts[other])
  {
    if FindExisting(s, tenant, r).Some? {
      FoundExists(s, tenant, r);
    }
  }

  lemma BlankNameIsSkipped(s: Store, tenant: string, r: Record)
    requires Strip(r.name) == ""
    ensures Upsert(s, tenant, r) == s
  {
  }

  /******* Finding *******/

  /** The text is a verified identifier of the type. */
  ghost predicate Known(s: Store, tenant: string, t: IdType, text: string) {
    IdKey(tenant, t, Normalize(t, text)) in s.index && s.index[IdKey(tenant, t, Normalize(t, text))].verified
  }

  ghost function OwnerOf(s: Store, tenant: string, t: IdType, text: string): AccountId
    requires Known(s, tenant, t, text)
  {
    s.index[IdKey(tenant, t, Normalize(t, text))].account
  }

  lemma {:induction false} SkipUnknown(index: Index, tenant: string, a: seq<Claim>, b: seq<Claim>)
    requires forall c :: c in a ==> !(KeyOf(tenant, c) in index && index[KeyOf(tenant, c)].verified)
    ensures FirstVerified(index, tenant, a + b) == FirstVerified(index, tenant, b)
  {
    if a == [] {
      assert a + b == b;
    } else {
      assert (a + b)[1..] == a[1..] + b && (a + b)[0] == a[0];
      assert a[0] in a;
      SkipUnknown(index, tenant, a[1..], b);
    }
  }

  /** A HubSpot id that an account of the tenant has decides. */
  lemma HubSpotDecides(s: Store, tenant: string, r: Record, id: AccountId)
    requires StoreOk(s) && r.hubspot != "" && id in s.accounts && id.tenant == tenant
        && s.accounts[id].hubspot == r.hubspot
    ensures FindExisting(s, tenant, r) == Some(id)
  {
    assert HasHubSpot(s.accounts, tenant, r.hubspot, id);
  }

  ghost predicate NoHubSpotOwner(s: Store, tenant: string, r: Record) {
    r.hubspot != "" ==> forall id: AccountId :: id in s.accounts && id.tenant == tenant ==>
        s.accounts[id].hubspot != r.hubspot
  }

  /** Without one the first known domain decides, */
  lemma DomainDecides(s: Store, tenant: string, r: Record, i: nat)
    requires StoreOk(s) && NoHubSpotOwner(s, tenant, r) && i < |r.domains| && Known(s, tenant, Domain, r.domains[i])
    requires forall j :: 0 <= j < i ==> !Known(s, tenant, Domain, r.domains[j])
    ensures FindExisting(s, tenant, r) == Some(OwnerOf(s, tenant, Domain, r.domains[i]))
  {
    var all := Candidates(r);
    var a, b := all[..i], all[i..];
    assert all == a + b;
    assert forall j :: 0 <= j < i ==> all[j] == Claim(Domain, r.domains[j], true);
    forall c | c in a
      ensures !(KeyOf(tenant, c) in s.index && s.index[KeyOf(tenant, c)].verified)
    {
      var j :| 0 <= j < i && a[j] == c;
      assert !Known(s, tenant, Domain, r.domains[j]);
    }
    SkipUnknown(s.index, tenant, a, b);
    assert b[0] == Claim(Domain, r.domains[i], true);
  }

  lemma DomainsUnknown(s: Store, tenant: string, r: Record)
    requires forall d :: d in r.domains ==> !Known(s, tenant, Domain, d)
    ensures FirstVerified(s.index, tenant, Candidates(r))
         == FirstVerified(s.index, tenant, Optional(Domain, r.domain) + Optional(LegalName, r.name))
  {
    var a := ClaimsOf(Domain, r.domains, true);
    forall c | c in a
      ensures !(KeyOf(tenant, c) in s.index && s.index[KeyOf(tenant, c)].verified)
    {
      assert c.original in r.domains && !Known(s, tenant, Domain, c.original);
    }
    SkipUnknown(s.index, tenant, a, Optional(Domain, r.domain) + Optional(LegalName, r.name));
    assert Candidates(r) == a + (Optional(Domain, r.domain) + Optional(LegalName, r.name));
  }

  /** then the single domain field, then the name, and nothing else. */
  lemma NameDecidesLast(s: Store, tenant: string, r: Record)
    requires StoreOk(s) && NoHubSpotOwner(s, tenant, r) && forall d :: d in r.domains ==> !Known(s, tenant, Domain, d)
    ensures FindExisting(s, tenant, r)
         == if r.domain != "" && Known(s, tenant, Domain, r.domain) then Some(OwnerOf(s, tenant, Domain, r.domain))
            else if r.name != "" && Known(s, tenant, LegalName, r.name) then Some(OwnerOf(s, tenant, LegalName, r.name))
            else None
  {
    DomainsUnknown(s, tenant, r);
    var rest := Optional(Domain, r.domain) + Optional(LegalName, r.name);
    LastCandidates(s.index, tenant, r.domain, r.name);
    assert ByHubSpot(s.accounts, tenant, r.hubspot).None?;
  }

  ghost predicate Verified(index: Index, key: IdKey) { key in index && index[key].verified }

  lemma FirstOfTwo(index: Index, tenant: string, d: Claim, n: Claim)
    ensures FirstVerified(index, tenant, []) == None
    ensures FirstVerified(index, tenant, [n])
         == if Verified(index, KeyOf(tenant, n)) then Some(index[KeyOf(tenant, n)].account) else None
    ensures FirstVerified(index, tenant, [d, n])
         == if Verified(index, KeyOf(tenant, d)) then Some(index[KeyOf(tenant, d)].account)
             else FirstVerified(index, tenant, [n])
  {
    assert [d, n][1..] == [n] && [n][1..] == [];
  }

  lemma LastCandidates(index: Index, tenant: string, domain: string, name: string)
    ensures var d, n := IdKey(tenant, Domain, Normalize(Domain, domain)), IdKey(tenant, LegalName,
        Normalize(LegalName, name));
            FirstVerified(index, tenant, Optional(Domain, domain) + Optional(LegalName, name))
            == if domain != "" && Verified(index, d) then Some(index[d].account)
               else if name != "" && Verified(index, n) then Some(index[n].account)
               else None
  {
    var d, n := Claim(Domain, domain, true), Claim(LegalName, name, true);
    FirstOfTwo(index, tenant, d, n);
    FirstOfTwo(index, tenant, n, d);
    if domain == "" {
      assert Optional(Domain, domain) + Optional(LegalName, name) == Optional(LegalName, name);
    } else if name == "" {
      assert Optional(Domain, domain) + Optional(LegalName, name) == [d];
    } else {
      assert Optional(Domain, domain) + Optional(LegalName, name) == [d, n];
    }
  }

  /******* The id map of a batch *******/

  /** A source id points at the account that the last named record carrying it resolved to. */
  lemma {:induction false} SourceIdsPointToLast(s: Store, tenant: string, records: seq<Record>, i: nat, x: string)
    requires i < |records| && Strip(records[i].name) != "" && x != "" && x in records[i].sourceIds
    requires forall j :: i < j < |records| && Strip(records[j].name) != "" ==> x !in records[j].sourceIds
    ensures x in IdMap(s, tenant, records)
         && IdMap(s, tenant, records)[x] == Resolve(UpsertRecords(s, tenant, records[..i]), tenant, records[i])
  {
    var before, last := records[..|records| - 1], records[|records| - 1];
    if i < |records| - 1 {
      assert before[..i] == records[..i] && forall j :: 0 <= j < |before| ==> before[j] == records[j];
      SourceIdsPointToLast(s, tenant, before, i, x);
      OtherIdsStay(s, tenant, records, x);
    } else {
      OwnIdsPointHere(s, tenant, records, x);
    }
  }

  /** The last record redirects its own source ids only. */
  lemma OtherIdsStay(s: Store, tenant: string, records: seq<Record>, x: string)
    requires records != []
    requires var last := records[|records| - 1]; Strip(last.name) == "" || x !in last.sourceIds || x == ""
    ensures var ids, before := IdMap(s, tenant, records), IdMap(s, tenant, records[..|records| - 1]);
            (x in ids <==> x in before) && (x in before ==> ids[x] == before[x])
  {
  }

  lemma OwnIdsPointHere(s: Store, tenant: string, records: seq<Record>, x: string)
    requires records != []
    requires var last := records[|records| - 1]; Strip(last.name) != "" && x in last.sourceIds && x != ""
    ensures var n := |records| - 1;
            x in IdMap(s, tenant, records)
            && IdMap(s, tenant, records)[x] == Resolve(UpsertRecords(s, tenant, records[..n]), tenant, records[n])
  {
  }

  lemma {:induction false} NoOtherSourceIds(s: Store, tenant: string, records: seq<Record>, x: string)
    requires x in IdMap(s, tenant, records)
    ensures x != "" && exists i :: 0 <= i < |records| && Strip(records[i].name) != "" && x in records[i].sourceIds
  {
    var n := |records| - 1;
    if Strip(records[n].name) == "" || x !in records[n].sourceIds || x == "" {
      var before := records[..n];
      OtherIdsStay(s, tenant, records, x);
      NoOtherSourceIds(s, tenant, before, x);
      var i :| 0 <= i < |before| && Strip(before[i].name) != "" && x in before[i].sourceIds;
      assert records[i] == before[i];
    }
  }
}
