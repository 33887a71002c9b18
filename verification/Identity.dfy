/**
 Canonical accounts and the identifier index (btx_platform/intelligence.py).

 An account id is the hash of tenant and basis; the hash is taken as injective, so the id is the pair.
 */
module Identity {
  import opened Common
  import opened Identifiers

  datatype AccountId = AccountId(tenant: string, basis: string)
  datatype IdKey = IdKey(tenant: string, idType: IdType, value: string)
  datatype Identifier = Identifier(account: AccountId, original: string, verified: bool)
  datatype Account = Account(legalName: string, displayName: string, domain: string, hubspot: string,
                             domains: seq<string>,
                             aliases: seq<string>, cageCode: string, uei: string, publicIds: seq<string>)

  /** A CRM record; a missing text is the empty string. */
  datatype Record = Record(name: string, domains: seq<string>, domain: string, hubspot: string, aliases: seq<string>,
                           cageCode: string, uei: string, publicIds: seq<string>, sourceIds: seq<string>)

  type Index = map<IdKey, Identifier>
  type Accounts = map<AccountId, Account>
  datatype Store = Store(index: Index, accounts: Accounts)

  /******* Identifiers *******/

  /** One identifier to put on an account. */
  datatype Claim = Claim(idType: IdType, original: string, verified: bool)

  function KeyOf(tenant: string, c: Claim): IdKey { IdKey(tenant, c.idType, Normalize(c.idType, c.original)) }

  predicate Usable(c: Claim) { Strip(c.original) != "" && Normalize(c.idType, c.original) != "" }

  /** A free key is taken, the account's own key is refreshed, and another account's key is left alone. */
  function UpsertIdentifier(index: Index, tenant: string, account: AccountId, c: Claim): Index {
    var key := KeyOf(tenant, c);
    if !Usable(c) then index
    else if key in index then
      if index[key].account
          == account then index[key := Identifier(account, c.original, index[key].verified || c.verified)] else index
    else index[key := Identifier(account, c.original, c.verified)]
  }

  function UpsertAll(index: Index, tenant: string, account: AccountId, claims: seq<Claim>): Index {
    if claims == [] then index
    else UpsertIdentifier(UpsertAll(index, tenant, account, claims[..|claims| - 1]), tenant, account,
                          claims[|claims| - 1])
  }

  function ClaimsOf(idType: IdType, values: seq<string>, verified: bool): seq<Claim> {
    seq(|values|, i requires 0 <= i < |values| => Claim(idType, values[i], verified))
  }

  function Optional(idType: IdType, value: string): seq<Claim> {
    if value == "" then [] else [Claim(idType, value, true)]
  }

  /** What an upsert claims for its account, in order. */
  function Claims(name: string, hubspot: string, r: Record): seq<Claim> {
    [Claim(LegalName, name, true)] + Optional(HubSpotId, hubspot) + ClaimsOf(Domain, r.domains, true)
    + ClaimsOf(VerifiedAlias, r.aliases, false) + Optional(CageCode, r.cageCode) + Optional(Uei, r.uei)
    + ClaimsOf(PublicRecipientId, r.publicIds, true)
  }

  /******* Lookup *******/

  ghost predicate HasHubSpot(accounts: Accounts, tenant: string, hubspot: string, id: AccountId) {
    hubspot != "" && id in accounts && id.tenant == tenant && accounts[id].hubspot == hubspot
  }

  ghost function ByHubSpot(accounts: Accounts, tenant: string, hubspot: string): Option<AccountId> {
    if exists id :: HasHubSpot(accounts, tenant, hubspot, id)
    then var id :| HasHubSpot(accounts, tenant, hubspot, id); Some(id)
    else None
  }

  /** What a record is looked up by when its HubSpot id finds nothing, in order. */
  function Candidates(r: Record): seq<Claim> {
    ClaimsOf(Domain, r.domains, true) + Optional(Domain, r.domain) + Optional(LegalName, r.name)
  }

  /** The owner of the first candidate that is a verified identifier. */
  function FirstVerified(index: Index, tenant: string, candidates: seq<Claim>): Option<AccountId> {
    if candidates == [] then None
    else
      var key := KeyOf(tenant, candidates[0]);
      if key in index && index[key].verified then Some(index[key].account)
          else FirstVerified(index, tenant, candidates[1..])
  }

  ghost function FindExisting(s: Store, tenant: string, r: Record): Option<AccountId> {
    if ByHubSpot(s.accounts, tenant, r.hubspot).Some? then ByHubSpot(s.accounts, tenant, r.hubspot)
    else
      var owner := FirstVerified(s.index, tenant, Candidates(r));
      if owner.Some? && owner.value in s.accounts then owner else None
  }

  /******* Upsert *******/

  function FirstDomain(r: Record): string { if r.domains == [] then "" else Strip(r.domains[0]) }

  function Basis(r: Record): string {
    if FirstDomain(r) != "" then Normalize(Domain, FirstDomain(r)) else Normalize(LegalName, Strip(r.name))
  }

  /** The account a record resolves to: an existing one, or one minted from its first domain or its name. */
  ghost function Resolve(s: Store, tenant: string, r: Record): AccountId {
    var existing := FindExisting(s, tenant, r);
    if existing.Some? then existing.value else AccountId(tenant, Basis(r))
  }

  const BLANK := Account("", "", "", "", [], [], "", "", [])

  function UpdatedAccount(row: Account, r: Record): Account {
    Account(if row.legalName != "" then row.legalName else Strip(r.name), Strip(r.name), FirstDomain(r),
            if r.hubspot != "" then r.hubspot else row.hubspot, r.domains, r.aliases, r.cageCode, r.uei, r.publicIds)
  }

  /** The account row an upsert starts from; a minted id starts from a blank row. */
  ghost function RowFor(s: Store, tenant: string, r: Record): Account {
    if FindExisting(s, tenant, r).Some? then s.accounts[FindExisting(s, tenant, r).value] else BLANK
  }

  /** A record without a name is skipped. */
  ghost function Upsert(s: Store, tenant: string, r: Record): Store {
    if Strip(r.name) == "" then s
    else
      var id := Resolve(s, tenant, r);
      var row := UpdatedAccount(RowFor(s, tenant, r), r);
      Store(UpsertAll(s.index, tenant, id, Claims(Strip(r.name), row.hubspot, r)), s.accounts[id := row])
  }

  /******* What every upsert keeps *******/

  /**
   Index entries point at existing accounts of their own tenant; names and domains are always verified; no
   HubSpot id is on two accounts.
   */
  ghost predicate StoreOk(s: Store) {
    && (forall k: IdKey :: k in s.index ==>
        s.index[k].account in s.accounts && s.index[k].account.tenant == k.tenant && k.value != "")
    && (forall k: IdKey :: k in s.index && k.idType in {Domain, LegalName} ==> s.index[k].verified)
    && HubSpotUnique(s.accounts)
  }

  ghost predicate HubSpotUnique(accounts: Accounts) {
    forall a, b | a in accounts && b in accounts && a.tenant == b.tenant ::
      accounts[a].hubspot == accounts[b].hubspot != "" ==> a == b
  }

  /** Nothing is lost: keys keep their owners, verified entries stay verified, and only this tenant gains. */
  ghost predicate IndexGrows(before: Index, after: Index, tenant: string) {
    && (forall k: IdKey :: k in before ==>
        k in after && after[k].account == before[k].account && (before[k].verified ==> after[k].verified))
    && (forall k: IdKey :: k.tenant != tenant ==>
        (k in after <==> k in before) && (k in before ==> after[k] == before[k]))
  }

  /** What the new entries look like. */
  ghost predicate IndexGains(before: Index, after: Index, tenant: string, account: AccountId) {
    forall k: IdKey :: k in after && k !in before ==> after[k].account == account && k.tenant == tenant && k.value != ""
  }

  ghost predicate AlwaysVerified(index: Index) {
    forall k: IdKey :: k in index && k.idType in {Domain, LegalName} ==> index[k].verified
  }

  lemma {:induction false} UpsertAllGrows(index: Index, tenant: string, account: AccountId, claims: seq<Claim>)
    ensures var after := UpsertAll(index, tenant, account, claims);
            IndexGrows(index, after, tenant) && IndexGains(index, after, tenant, account)
  {
    if claims != [] {
      UpsertAllGrows(index, tenant, account, claims[..|claims| - 1]);
    }
  }

  predicate ClaimsAreVerified(claims: seq<Claim>) {
    forall i :: 0 <= i < |claims| && claims[i].idType in {Domain, LegalName} ==> claims[i].verified
  }

  lemma {:induction false} UpsertAllVerified(index: Index, tenant: string, account: AccountId, claims: seq<Claim>)
    requires AlwaysVerified(index) && ClaimsAreVerified(claims)
    ensures AlwaysVerified(UpsertAll(index, tenant, account, claims))
  {
    if claims != [] {
      UpsertAllVerified(index, tenant, account, claims[..|claims| - 1]);
    }
  }

  /** Every usable claim ends up in the index; a key that was free goes to the account. */
  lemma {:induction false} UpsertAllClaims(index: Index, tenant: string, account: AccountId, claims: seq<Claim>, i: nat)
    requires i < |claims| && Usable(claims[i])
    ensures var key, after := KeyOf(tenant, claims[i]), UpsertAll(index, tenant, account, claims);
            key in after && after[key].account == if key in index then index[key].account else account
  {
    var before := claims[..|claims| - 1];
    UpsertAllGrows(index, tenant, account, before);
    if i < |claims| - 1 {
      UpsertAllClaims(index, tenant, account, before, i);
    }
  }

  lemma ClaimsVerified(name: string, hubspot: string, r: Record)
    ensures ClaimsAreVerified(Claims(name, hubspot, r))
  {
  }

  lemma {:induction false} FirstVerifiedIsOwner(index: Index, tenant: string, candidates: seq<Claim>)
    requires FirstVerified(index, tenant, candidates).Some?
    ensures exists i :: 0 <= i < |candidates| && KeyOf(tenant, candidates[i]) in index
                        && index[KeyOf(tenant, candidates[i])].account == FirstVerified(index, tenant, candidates).value
  {
    var key := KeyOf(tenant, candidates[0]);
    if !(key in index && index[key].verified) {
      FirstVerifiedIsOwner(index, tenant, candidates[1..]);
      var i :| 0 <= i < |candidates[1..]| && KeyOf(tenant, candidates[1..][i]) in index
               && index[KeyOf(tenant, candidates[1..][i])].account == FirstVerified(index, tenant, candidates).value;
      assert candidates[1..][i] == candidates[i + 1];
    }
  }

  /** Whatever a lookup finds is an existing account of the tenant. */
  lemma FoundExists(s: Store, tenant: string, r: Record)
    requires StoreOk(s) && FindExisting(s, tenant, r).Some?
    ensures FindExisting(s, tenant, r).value in s.accounts && FindExisting(s, tenant, r).value.tenant == tenant
  {
    if ByHubSpot(s.accounts, tenant, r.hubspot).None? {
      FirstVerifiedIsOwner(s.index, tenant, Candidates(r));
    }
  }

  lemma ResolvesInTenant(s: Store, tenant: string, r: Record)
    requires StoreOk(s)
    ensures Resolve(s, tenant, r).tenant == tenant
  {
    if FindExisting(s, tenant, r).Some? {
      FoundExists(s, tenant, r);
    }
  }

  lemma UpsertKeepsIndex(s: Store, tenant: string, r: Record)
    requires StoreOk(s)
    ensures var s' := Upsert(s, tenant, r);
            && IndexGrows(s.index, s'.index, tenant)
            && AlwaysVerified(s'.index)
            && (forall k: IdKey :: k in s'.index ==>
                s'.index[k].account in s'.accounts && s'.index[k].account.tenant == k.tenant && k.value != "")
  {
    if Strip(r.name) != "" {
      var id, row := Resolve(s, tenant, r), UpdatedAccount(RowFor(s, tenant, r), r);
      var claims := Claims(Strip(r.name), row.hubspot, r);
      ResolvesInTenant(s, tenant, r);
      ClaimsVerified(Strip(r.name), row.hubspot, r);
      UpsertAllGrows(s.index, tenant, id, claims);
      UpsertAllVerified(s.index, tenant, id, claims);
    }
  }

  /** The database's uniqueness constraint on HubSpot ids is never violated by an upsert. */
  lemma UpsertKeepsHubSpotUnique(s: Store, tenant: string, r: Record)
    requires StoreOk(s)
    ensures HubSpotUnique(Upsert(s, tenant, r).accounts)
  {
    var accounts := Upsert(s, tenant, r).accounts;
    ResolvesInTenant(s, tenant, r);
    forall a, b | a in accounts && b in accounts && a.tenant == b.tenant
        && accounts[a].hubspot == accounts[b].hubspot != ""
      ensures a == b
    {
      var id := Resolve(s, tenant, r);
      if Strip(r.name) != "" && (a == id) != (b == id) {
        var other := if a == id then b else a;
        OnlyResolvedHasHubSpot(s, tenant, r, other);
      }
    }
  }

  lemma OnlyResolvedHasHubSpot(s: Store, tenant: string, r: Record, other: AccountId)
    requires StoreOk(s) && other in s.accounts && other.tenant == tenant && other != Resolve(s, tenant, r)
    ensures s.accounts[other].hubspot != "" ==>
        s.accounts[other].hubspot != UpdatedAccount(RowFor(s, tenant, r), r).hubspot
  {
    if s.accounts[other].hubspot != "" {
      if s.accounts[other].hubspot == r.hubspot {
        assert HasHubSpot(s.accounts, tenant, r.hubspot, other);
        assert false;
      }
      if FindExisting(s, tenant, r).Some? {
        FoundExists(s, tenant, r);
      }
    }
  }

  /**
   Every upsert, of any record: the index stays a function into existing accounts of the right tenant, no key
   changes owner, no verified entry is downgraded, other tenants see no change, and no HubSpot id gets two accounts.
   */
  lemma UpsertKeeps(s: Store, tenant: string, r: Record)
    requires StoreOk(s)
    ensures var s' := Upsert(s, tenant, r);
            && StoreOk(s')
            && IndexGrows(s.index, s'.index, tenant)
            && s.accounts.Keys <= s'.accounts.Keys
            && (forall id: AccountId :: id.tenant != tenant ==> (id in s'.accounts <==> id in s.accounts)
                                                                && (id in s.accounts ==>
                                                                    s'.accounts[id] == s.accounts[id]))
  {
    UpsertKeepsIndex(s, tenant, r);
    UpsertKeepsHubSpotUnique(s, tenant, r);
    ResolvesInTenant(s, tenant, r);
  }

  /******* When a minted account id is new *******/

  /** The key of an id's basis under a type. */
  function BasisKey(id: AccountId, idType: IdType): IdKey { IdKey(id.tenant, idType, id.basis) }

  ghost predicate Owns(index: Index, id: AccountId, idType: IdType) {
    BasisKey(id, idType) in index && index[BasisKey(id, idType)].account == id
  }

  /** Every account with a basis owns that basis, as a domain or as a legal name. */
  ghost predicate BasisOwned(s: Store) {
    forall id: AccountId :: id in s.accounts && id.basis != "" ==>
        Owns(s.index, id, Domain) || Owns(s.index, id, LegalName)
  }

  /** The type a record's basis comes from, and the other one. */
  function BasisType(r: Record): IdType { if FirstDomain(r) != "" then Domain else LegalName }

  function OtherType(r: Record): IdType { if FirstDomain(r) != "" then LegalName else Domain }

  /** A record's basis is one of its claims and one of its lookup candidates. */
  lemma BasisIsClaimed(r: Record, tenant: string, hubspot: string) returns (claim: nat, candidate: nat)
    requires Strip(r.name) != "" && Basis(r) != ""
    ensures var claims := Claims(Strip(r.name), hubspot, r);
            claim < |claims| && Usable(claims[claim])
            && KeyOf(tenant, claims[claim]) == BasisKey(AccountId(tenant, Basis(r)), BasisType(r))
    ensures candidate < |Candidates(r)|
            && KeyOf(tenant, Candidates(r)[candidate]) == BasisKey(AccountId(tenant, Basis(r)), BasisType(r))
  {
    var claims := Claims(Strip(r.name), hubspot, r);
    if FirstDomain(r) != "" {
      NormalizeIgnoresSpace(Domain, r.domains[0]);
      claim, candidate := 1 + |Optional(HubSpotId, hubspot)|, 0;
      assert claims[claim] == Claim(Domain, r.domains[0], true);
      assert Candidates(r)[0] == Claim(Domain, r.domains[0], true);
    } else {
      NormalizeIgnoresSpace(LegalName, r.name);
      StripTwice(r.name);
      claim, candidate := 0, |r.domains| + |Optional(Domain, r.domain)|;
      assert claims[0] == Claim(LegalName, Strip(r.name), true);
      assert r.name != "";
      assert Candidates(r)[candidate] == Claim(LegalName, r.name, true);
    }
  }

  lemma {:induction false} VerifiedIsFound(index: Index, tenant: string, candidates: seq<Claim>, i: nat)
    requires i < |candidates| && KeyOf(tenant, candidates[i]) in index && index[KeyOf(tenant, candidates[i])].verified
    ensures FirstVerified(index, tenant, candidates).Some?
  {
    if i > 0 {
      assert candidates[i] == candidates[1..][i - 1];
      VerifiedIsFound(index, tenant, candidates[1..], i - 1);
    }
  }

  /** When a lookup finds nothing, the key of the record's basis is free. */
  lemma UnfoundBasisIsFree(s: Store, tenant: string, r: Record)
    requires StoreOk(s) && Strip(r.name) != "" && Basis(r) != "" && FindExisting(s, tenant, r).None?
    ensures BasisKey(AccountId(tenant, Basis(r)), BasisType(r)) !in s.index
  {
    var _, candidate := BasisIsClaimed(r, tenant, "");
    if BasisKey(AccountId(tenant, Basis(r)), BasisType(r)) in s.index {
      VerifiedIsFound(s.index, tenant, Candidates(r), candidate);
      FirstVerifiedIsOwner(s.index, tenant, Candidates(r));
      assert false;
    }
  }

  /**
   An upsert that finds no account mints a new id exactly when the id does not own its basis under the other type
   already.
   */
  lemma MintIsFreshExactlyWhen(s: Store, tenant: string, r: Record)
    requires StoreOk(s) && BasisOwned(s) && Strip(r.name) != "" && Basis(r) != ""
    requires FindExisting(s, tenant, r).None?
    ensures Resolve(s, tenant, r) !in s.accounts <==> !Owns(s.index, AccountId(tenant, Basis(r)), OtherType(r))
  {
    UnfoundBasisIsFree(s, tenant, r);
  }

  lemma UpsertKeepsBasisOwned(s: Store, tenant: string, r: Record)
    requires StoreOk(s) && BasisOwned(s)
    ensures BasisOwned(Upsert(s, tenant, r))
  {
    UpsertKeepsIndex(s, tenant, r);
    if Strip(r.name) != "" && FindExisting(s, tenant, r).None? && Basis(r) != "" {
      var id, row := Resolve(s, tenant, r), UpdatedAccount(RowFor(s, tenant, r), r);
      var claim, _ := BasisIsClaimed(r, tenant, row.hubspot);
      UpsertAllClaims(s.index, tenant, id, Claims(Strip(r.name), row.hubspot, r), claim);
      UnfoundBasisIsFree(s, tenant, r);
      assert Owns(Upsert(s, tenant, r).index, id, BasisType(r));
    } else if Strip(r.name) != "" && FindExisting(s, tenant, r).Some? {
      FoundExists(s, tenant, r);
    }
  }

  /** No key of a legal name holds a dot, whoever claimed it. */
  ghost predicate NamesHaveNoDots(index: Index) {
    forall k: IdKey :: k in index && k.idType == LegalName ==> '.' !in k.value
  }

  lemma {:induction false} ClaimsKeepNames(index: Index, tenant: string, account: AccountId, claims: seq<Claim>)
    requires NamesHaveNoDots(index)
    ensures NamesHaveNoDots(UpsertAll(index, tenant, account, claims))
  {
    if claims != [] {
      ClaimsKeepNames(index, tenant, account, claims[..|claims| - 1]);
      var last := claims[|claims| - 1];
      if last.idType == LegalName {
        NameHasNoDot(last.original);
      }
    }
  }

  lemma UpsertKeepsNames(s: Store, tenant: string, r: Record)
    requires NamesHaveNoDots(s.index)
    ensures NamesHaveNoDots(Upsert(s, tenant, r).index)
  {
    if Strip(r.name) != "" {
      var id, row := Resolve(s, tenant, r), UpdatedAccount(RowFor(s, tenant, r), r);
      ClaimsKeepNames(s.index, tenant, id, Claims(Strip(r.name), row.hubspot, r));
    }
  }

  /******* Runs *******/

  datatype Input = Input(tenant: string, record: Record)

  ghost predicate IsRun(stores: seq<Store>, inputs: seq<Input>) {
    && |stores| == |inputs| + 1
    && forall i :: 0 <= i < |inputs| ==> stores[i + 1] == Upsert(stores[i], inputs[i].tenant, inputs[i].record)
  }

  lemma {:induction false} RunKeeps(stores: seq<Store>, inputs: seq<Input>, n: nat)
    requires IsRun(stores, inputs) && StoreOk(stores[0]) && n < |stores|
    ensures StoreOk(stores[n])
  {
    if n > 0 {
      RunKeeps(stores, inputs, n - 1);
      UpsertKeeps(stores[n - 1], inputs[n - 1].tenant, inputs[n - 1].record);
    }
  }

  /** Keys keep their owners and stay verified. */
  ghost predicate OwnersStay(before: Index, after: Index) {
    forall k: IdKey :: k in before ==>
      k in after && after[k].account == before[k].account && (before[k].verified ==> after[k].verified)
  }

  /** Over any run no identifier ever changes its account and no verified one is downgraded. */
  lemma OwnersAreForever(stores: seq<Store>, inputs: seq<Input>, m: nat, n: nat)
    requires IsRun(stores, inputs) && StoreOk(stores[0]) && m <= n < |stores|
    ensures OwnersStay(stores[m].index, stores[n].index)
  {
    RunKeeps(stores, inputs, m);
    for i := m to n
      invariant StoreOk(stores[i]) && OwnersStay(stores[m].index, stores[i].index)
    {
      UpsertKeeps(stores[i], inputs[i].tenant, inputs[i].record);
      OwnersStayOn(stores[m].index, stores[i].index, stores[i + 1].index, inputs[i].tenant);
    }
  }

  lemma OwnersStayOn(first: Index, before: Index, after: Index, tenant: string)
    requires OwnersStay(first, before) && IndexGrows(before, after, tenant)
    ensures OwnersStay(first, after)
  {
  }

  const Empty := Store(map[], map[])

  ghost predicate MintOk(s: Store) { StoreOk(s) && BasisOwned(s) && NamesHaveNoDots(s.index) }

  lemma MintOkStays(stores: seq<Store>, inputs: seq<Input>, n: nat)
    requires IsRun(stores, inputs) && stores[0] == Empty && n < |stores|
    ensures MintOk(stores[n])
  {
    for i := 0 to n
      invariant MintOk(stores[i])
    {
      UpsertKeeps(stores[i], inputs[i].tenant, inputs[i].record);
      UpsertKeepsBasisOwned(stores[i], inputs[i].tenant, inputs[i].record);
      UpsertKeepsNames(stores[i], inputs[i].tenant, inputs[i].record);
    }
  }

  /** The record has a name and no account is found for it. */
  ghost predicate Mints(s: Store, input: Input) {
    Strip(input.record.name) != "" && FindExisting(s, input.tenant, input.record).None?
  }

  /**
   In any run from the empty store a mint with a basis is of a new account id exactly when that id does not own its
   basis under the other of domain and legal name; so one whose first domain has a dot always is.
   */
  lemma MintsAreFreshExactlyWhen(stores: seq<Store>, inputs: seq<Input>, n: nat)
    requires IsRun(stores, inputs) && stores[0] == Empty && n < |inputs|
    requires Mints(stores[n], inputs[n]) && Basis(inputs[n].record) != ""
    ensures var s, id := stores[n], AccountId(inputs[n].tenant, Basis(inputs[n].record));
            && Resolve(s, inputs[n].tenant, inputs[n].record) == id
            && (id !in s.accounts <==> !Owns(s.index, id, OtherType(inputs[n].record)))
            && (FirstDomain(inputs[n].record) != "" && '.' in id.basis ==> id !in s.accounts)
  {
    MintOkStays(stores, inputs, n);
    MintIsFreshExactlyWhen(stores[n], inputs[n].tenant, inputs[n].record);
  }

  /** Some of the first n inputs minted the id. */
  ghost predicate MintedBefore(stores: seq<Store>, inputs: seq<Input>, n: nat, id: AccountId)
    requires |stores| == |inputs| + 1 && n <= |inputs|
  {
    exists i :: 0 <= i < n && MintsId(stores[i], inputs[i], id)
  }

  ghost predicate MintsId(s: Store, input: Input, id: AccountId) {
    Mints(s, input) && AccountId(input.tenant, Basis(input.record)) == id
  }

  lemma UpsertAddsTheMinted(s: Store, input: Input, id: AccountId)
    requires StoreOk(s)
    ensures id in Upsert(s, input.tenant, input.record).accounts <==> id in s.accounts || MintsId(s, input, id)
  {
    if Strip(input.record.name) != "" && FindExisting(s, input.tenant, input.record).Some? {
      FoundExists(s, input.tenant, input.record);
    }
  }

  /**
   An account exists exactly when some earlier record minted it.  So a mint without a basis, from a name or a domain
   that normalises to nothing, is fresh exactly when it is the tenant's first: all such companies share one account.
   */
  lemma AccountsAreTheMinted(stores: seq<Store>, inputs: seq<Input>, n: nat, id: AccountId)
    requires IsRun(stores, inputs) && stores[0] == Empty && n < |stores|
    ensures id in stores[n].accounts <==> MintedBefore(stores, inputs, n, id)
  {
    for i := 0 to n
      invariant StoreOk(stores[i])
      invariant id in stores[i].accounts <==> MintedBefore(stores, inputs, i, id)
    {
      UpsertKeeps(stores[i], inputs[i].tenant, inputs[i].record);
      UpsertAddsTheMinted(stores[i], inputs[i], id);
      MintedBeforeNext(stores, inputs, i, id);
    }
  }

  lemma MintedBeforeNext(stores: seq<Store>, inputs: seq<Input>, n: nat, id: AccountId)
    requires |stores| == |inputs| + 1 && n < |inputs|
    ensures MintedBefore(stores, inputs, n + 1, id)
        <==> MintedBefore(stores, inputs, n, id) || MintsId(stores[n], inputs[n], id)
  {
  }

  /******* Identity is stable *******/

  /** The record's first lookup candidate is an identifier of account x. */
  ghost predicate FirstCandidateOwned(s: Store, tenant: string, r: Record, x: AccountId) {
    && Candidates(r) != []
    && KeyOf(tenant, Candidates(r)[0]) in s.index
    && s.index[KeyOf(tenant, Candidates(r)[0])].account == x
  }

  /** Nothing but x can be found for the record. */
  ghost predicate Settled(s: Store, tenant: string, r: Record, x: AccountId) {
    && StoreOk(s)
    && FirstCandidateOwned(s, tenant, r, x)
    && forall id: AccountId :: HasHubSpot(s.accounts, tenant, r.hubspot, id) ==> id == x
  }

  lemma SettledResolves(s: Store, tenant: string, r: Record, x: AccountId)
    requires Settled(s, tenant, r, x)
    ensures Resolve(s, tenant, r) == x
  {
    assert KeyOf(tenant, Candidates(r)[0]).idType in {Domain, LegalName};
    if ByHubSpot(s.accounts, tenant, r.hubspot).Some? {
      assert HasHubSpot(s.accounts, tenant, r.hubspot, ByHubSpot(s.accounts, tenant, r.hubspot).value);
    }
  }

  lemma UpsertSettles(s: Store, tenant: string, r: Record)
    requires StoreOk(s) && Strip(r.name) != ""
    requires FirstCandidateOwned(Upsert(s, tenant, r), tenant, r, Resolve(s, tenant, r))
    ensures Settled(Upsert(s, tenant, r), tenant, r, Resolve(s, tenant, r))
  {
    UpsertKeeps(s, tenant, r);
    var id, s' := Resolve(s, tenant, r), Upsert(s, tenant, r);
    ResolvesInTenant(s, tenant, r);
    assert r.hubspot != "" ==> s'.accounts[id].hubspot == r.hubspot;
  }

  /** A record that does not carry r's HubSpot id, or is r itself. */
  predicate KeepsAway(tenant: string, r: Record, other: Input) {
    other.tenant != tenant || r.hubspot == "" || other.record.hubspot != r.hubspot || other.record == r
  }

  lemma UpsertKeepsSettled(s: Store, tenant: string, r: Record, x: AccountId, other: Input)
    requires Settled(s, tenant, r, x) && KeepsAway(tenant, r, other)
    ensures Settled(Upsert(s, other.tenant, other.record), tenant, r, x)
  {
    var s' := Upsert(s, other.tenant, other.record);
    UpsertKeeps(s, other.tenant, other.record);
    ResolvesInTenant(s, other.tenant, other.record);
    SettledResolves(s, tenant, r, x);
    forall id: AccountId | HasHubSpot(s'.accounts, tenant, r.hubspot, id)
      ensures id == x
    {
      if id != Resolve(s, other.tenant, other.record) || Strip(other.record.name) == "" {
        assert HasHubSpot(s.accounts, tenant, r.hubspot, id);
      } else if other.record != r {
        assert s'.accounts[id].hubspot == RowFor(s, other.tenant, other.record).hubspot;
        assert HasHubSpot(s.accounts, tenant, r.hubspot, id);
      }
    }
  }

  lemma {:induction false} StaysSettled(stores: seq<Store>, inputs: seq<Input>, m: nat, n: nat, tenant: string,
                                        r: Record, x: AccountId)
    requires IsRun(stores, inputs) && m <= n < |stores| && Settled(stores[m], tenant, r, x)
    requires forall i :: m <= i < n ==> KeepsAway(tenant, r, inputs[i])
    ensures Settled(stores[n], tenant, r, x)
  {
    if m < n {
      StaysSettled(stores, inputs, m, n - 1, tenant, r, x);
      UpsertKeepsSettled(stores[n - 1], tenant, r, x, inputs[n - 1]);
    }
  }

  /**
   Once a record has resolved to an account and its first lookup candidate belongs to that account, the same
   record resolves to the same account after any sequence of upserts, as long as no different record of the
   tenant carries its HubSpot id.
   */
  lemma IdentityIsStable(stores: seq<Store>, inputs: seq<Input>, m: nat, n: nat)
    requires IsRun(stores, inputs) && StoreOk(stores[0]) && m < n < |stores| && Strip(inputs[m].record.name) != ""
    requires FirstCandidateOwned(stores[m + 1], inputs[m].tenant, inputs[m].record,
                                 Resolve(stores[m], inputs[m].tenant, inputs[m].record))
    requires forall i :: m < i < n ==> KeepsAway(inputs[m].tenant, inputs[m].record, inputs[i])
    ensures Resolve(stores[n], inputs[m].tenant, inputs[m].record)
        == Resolve(stores[m], inputs[m].tenant, inputs[m].record)
  {
    var tenant, r := inputs[m].tenant, inputs[m].record;
    RunKeeps(stores, inputs, m);
    UpsertSettles(stores[m], tenant, r);
    StaysSettled(stores, inputs, m + 1, n, tenant, r, Resolve(stores[m], tenant, r));
    SettledResolves(stores[n], tenant, r, Resolve(stores[m], tenant, r));
  }

  /** The first candidate is one the upsert claims: the first domain, or the name of a record without any domain. */
  predicate FirstCandidateUsable(r: Record) {
    && Candidates(r) != [] && Usable(Candidates(r)[0])
    && (r.domains == [] ==> r.domain == "")
  }

  /**
   When that claim succeeds: exactly when the key was free or already the account's, in particular whenever no
   HubSpot id decided.
   */
  lemma WhenFirstCandidateIsOwned(s: Store, tenant: string, r: Record)
    requires StoreOk(s) && Strip(r.name) != "" && FirstCandidateUsable(r)
    ensures var x, key := Resolve(s, tenant, r), KeyOf(tenant, Candidates(r)[0]);
            && (FirstCandidateOwned(Upsert(s, tenant, r), tenant, r, x)
                <==> (key in s.index ==> s.index[key].account == x))
            && (ByHubSpot(s.accounts, tenant, r.hubspot).None? ==>
                FirstCandidateOwned(Upsert(s, tenant, r), tenant, r, x))
  {
    var x, row := Resolve(s, tenant, r), UpdatedAccount(RowFor(s, tenant, r), r);
    var i := FirstCandidateIsClaimed(r, tenant, row.hubspot);
    UpsertAllClaims(s.index, tenant, x, Claims(Strip(r.name), row.hubspot, r), i);
  }

  lemma FirstCandidateIsClaimed(r: Record, tenant: string, hubspot: string) returns (i: nat)
    requires Strip(r.name) != "" && FirstCandidateUsable(r)
    ensures var claims := Claims(Strip(r.name), hubspot, r);
            i < |claims| && Usable(claims[i]) && KeyOf(tenant, claims[i]) == KeyOf(tenant, Candidates(r)[0])
  {
    var claims := Claims(Strip(r.name), hubspot, r);
    i := if r.domains != [] then 1 + |Optional(HubSpotId, hubspot)| else 0;
    if r.domains != [] {
      assert claims[i] == Claim(Domain, r.domains[0], true) == Candidates(r)[0];
    } else {
      NormalizeIgnoresSpace(LegalName, r.name);
      StripTwice(r.name);
      assert Candidates(r)[0] == Claim(LegalName, r.name, true);
    }
  }

  /******* How two companies become one account *******/

  function Plain(name: string, domains: seq<string>, hubspot: string): Record {
    Record(name, domains, "", hubspot, [], "", "", [], [])
  }

  lemma {:induction false} KeysAreClaimed(index: Index, tenant: string, account: AccountId, claims: seq<Claim>)
    ensures forall k: IdKey :: k in UpsertAll(index, tenant, account, claims) ==>
              k in index || exists c :: c in claims && KeyOf(tenant, c) == k
  {
    if claims != [] {
      var before, last := claims[..|claims| - 1], claims[|claims| - 1];
      KeysAreClaimed(index, tenant, account, before);
      assert claims == before + [last];
      forall k: IdKey | k in UpsertAll(index, tenant, account, claims) && k !in index
        ensures exists c :: c in claims && KeyOf(tenant, c) == k
      {
        if k in UpsertAll(index, tenant, account, before) {
          var c :| c in before && KeyOf(tenant, c) == k;
          assert c in claims;
        } else {
          assert last in claims && KeyOf(tenant, last) == k;
        }
      }
    }
  }

  lemma NotFoundWithout(index: Index, tenant: string, candidates: seq<Claim>)
    requires |candidates| <= 2 && forall i :: 0 <= i < |candidates| ==> KeyOf(tenant, candidates[i]) !in index
    ensures FirstVerified(index, tenant, candidates).None?
  {
    if |candidates| == 2 {
      assert candidates[1..] == [candidates[1]];
      assert candidates[1..][1..] == [];
    }
  }

  /** The names and domains in the index, HubSpot ids aside. */
  ghost predicate OnlyTaken(index: Index, taken: set<IdKey>) {
    forall k: IdKey :: k in index ==> k.idType == HubSpotId || k in taken
  }

  /** A record that no account has the HubSpot id of, and whose candidates are all free, mints the id of its basis. */
  lemma FreeRecordMints(s: Store, tenant: string, r: Record, taken: set<IdKey>)
    requires Strip(r.name) != "" && |Candidates(r)| <= 2 && OnlyTaken(s.index, taken)
    requires forall id: AccountId :: !HasHubSpot(s.accounts, tenant, r.hubspot, id)
    requires forall c :: c in Candidates(r) ==> KeyOf(tenant, c) !in taken
    ensures Mints(s, Input(tenant, r)) && Resolve(s, tenant, r) == AccountId(tenant, Basis(r))
  {
    forall i | 0 <= i < |Candidates(r)|
      ensures KeyOf(tenant, Candidates(r)[i]) !in s.index
    {
      assert Candidates(r)[i] in Candidates(r) && Candidates(r)[i].idType != HubSpotId;
    }
    NotFoundWithout(s.index, tenant, Candidates(r));
  }

  /** What such a mint leaves of the account: whatever was there before is gone. */
  lemma MintedRow(s: Store, tenant: string, r: Record)
    requires Mints(s, Input(tenant, r))
    ensures var s' := Upsert(s, tenant, r);
            && s'.accounts == s.accounts[AccountId(tenant, Basis(r)) := UpdatedAccount(BLANK, r)]
            && s'.index == UpsertAll(s.index, tenant, AccountId(tenant, Basis(r)), Claims(Strip(r.name), r.hubspot, r))
  {
    assert UpdatedAccount(BLANK, r).hubspot == r.hubspot;
  }

  function TakenBy(tenant: string, name: string, domains: seq<string>): set<IdKey> {
    {IdKey(tenant, LegalName, Normalize(LegalName, name))}
    + (set d | d in domains :: IdKey(tenant, Domain, Normalize(Domain, d)))
  }

  lemma PlainClaims(tenant: string, name: string, domains: seq<string>, hubspot: string)
    ensures forall c :: c in Claims(Strip(name), hubspot, Plain(name, domains, hubspot)) ==>
              c.idType == HubSpotId || KeyOf(tenant, c) in TakenBy(tenant, name, domains)
  {
    NormalizeIgnoresSpace(LegalName, name);
    forall c | c in Claims(Strip(name), hubspot, Plain(name, domains, hubspot)) && c.idType != HubSpotId
      ensures KeyOf(tenant, c) in TakenBy(tenant, name, domains)
    {
      assert c == Claim(LegalName, Strip(name), true) || (c.idType == Domain && c.original in domains);
    }
  }

  /** The store after one company, from the empty one. */
  lemma AfterFirst(tenant: string, name: string, domains: seq<string>, hubspot: string)
    requires Strip(name) != "" && |domains| <= 1
    ensures var r := Plain(name, domains, hubspot);
            var s := Upsert(Empty, tenant, r);
            && OnlyTaken(s.index, TakenBy(tenant, name, domains))
            && s.accounts == map[AccountId(tenant, Basis(r)) := UpdatedAccount(BLANK, r)]
  {
    var r := Plain(name, domains, hubspot);
    FreeRecordMints(Empty, tenant, r, {});
    MintedRow(Empty, tenant, r);
    KeysAreClaimed(map[], tenant, AccountId(tenant, Basis(r)), Claims(Strip(name), hubspot, r));
    PlainClaims(tenant, name, domains, hubspot);
  }

  lemma PlainBasis(name: string, domain: string, hubspot: string)
    requires Strip(name) != ""
    ensures Basis(Plain(name, [], hubspot)) == Normalize(LegalName, name)
    ensures Strip(domain) != "" ==> Basis(Plain(name, [domain], hubspot)) == Normalize(Domain, domain)
    ensures Candidates(Plain(name, [], hubspot)) == [Claim(LegalName, name, true)]
    ensures Candidates(Plain(name, [domain], hubspot)) == [Claim(Domain, domain, true), Claim(LegalName, name, true)]
  {
    NormalizeIgnoresSpace(LegalName, name);
    NormalizeIgnoresSpace(Domain, domain);
  }

  /** The company's name normalises to what the other company's domain normalises to, and not to what its name does. */
  predicate Alike(name: string, other: string, domain: string) {
    && Strip(name) != "" && Strip(other) != "" && Strip(domain) != ""
    && Normalize(LegalName, name) == Normalize(Domain, domain) != Normalize(LegalName, other)
  }

  /**
   The second company is not found, gets the first one's account, and leaves nothing of its legal name and
   HubSpot id.
   */
  ghost predicate Merges(tenant: string, first: Record, second: Record) {
    var s := Upsert(Empty, tenant, first);
    var id := Resolve(s, tenant, second);
    && Mints(s, Input(tenant, second)) && id in s.accounts
    && s.accounts[id].legalName == Strip(first.name) && s.accounts[id].hubspot == first.hubspot
    && var t := Upsert(s, tenant, second);
    && t.accounts.Keys == {id} && t.accounts[id].legalName == Strip(second.name)
        && t.accounts[id].hubspot == second.hubspot
  }

  lemma FreeSecondMerges(tenant: string, first: Record, second: Record, taken: set<IdKey>)
    requires var s := Upsert(Empty, tenant, first);
             && OnlyTaken(s.index, taken)
             && s.accounts == map[AccountId(tenant, Basis(first)) := UpdatedAccount(BLANK, first)]
    requires Strip(second.name) != "" && |Candidates(second)| <= 2 && Basis(second) == Basis(first)
    requires second.hubspot == "" || second.hubspot != first.hubspot
    requires forall c :: c in Candidates(second) ==> KeyOf(tenant, c) !in taken
    ensures Merges(tenant, first, second)
  {
    var s := Upsert(Empty, tenant, first);
    assert UpdatedAccount(BLANK, first).hubspot == first.hubspot;
    FreeRecordMints(s, tenant, second, taken);
    MintedRow(s, tenant, second);
  }

  /** The second company's record fits after the first one's. */
  predicate Fits(tenant: string, first: Record, second: Record, taken: set<IdKey>) {
    && Strip(second.name) != "" && |Candidates(second)| <= 2 && Basis(second) == Basis(first)
    && (forall c :: c in Candidates(second) ==> KeyOf(tenant, c) !in taken)
  }

  lemma NamedFitsFirst(tenant: string, name: string, hubspot: string, other: string, domain: string, hubspot': string)
    requires Alike(name, other, domain)
    ensures Fits(tenant, Plain(name, [], hubspot), Plain(other, [domain], hubspot'), TakenBy(tenant, name, []))
  {
    PlainBasis(name, domain, hubspot);
    PlainBasis(other, domain, hubspot');
  }

  lemma NamedFitsSecond(tenant: string, name: string, hubspot: string, other: string, domain: string, hubspot': string)
    requires Alike(name, other, domain)
    ensures Fits(tenant, Plain(other, [domain], hubspot'), Plain(name, [], hubspot), TakenBy(tenant, other, [domain]))
  {
    PlainBasis(name, domain, hubspot);
    PlainBasis(other, domain, hubspot');
  }

  lemma FittingMerge(tenant: string, name: string, domains: seq<string>, hubspot: string, second: Record)
    requires Strip(name) != "" && |domains| <= 1 && (second.hubspot == "" || second.hubspot != hubspot)
    requires Fits(tenant, Plain(name, domains, hubspot), second, TakenBy(tenant, name, domains))
    ensures Merges(tenant, Plain(name, domains, hubspot), second)
  {
    AfterFirst(tenant, name, domains, hubspot);
    FreeSecondMerges(tenant, Plain(name, domains, hubspot), second, TakenBy(tenant, name, domains));
  }

  /** Such companies, with any HubSpot ids they do not share, become one: the named one first, */
  lemma NameThenDomainMerge(tenant: string, name: string, hubspot: string, other: string, domain: string,
                            hubspot': string)
    requires Alike(name, other, domain) && (hubspot' == "" || hubspot' != hubspot)
    ensures Merges(tenant, Plain(name, [], hubspot), Plain(other, [domain], hubspot'))
  {
    NamedFitsFirst(tenant, name, hubspot, other, domain, hubspot');
    FittingMerge(tenant, name, [], hubspot, Plain(other, [domain], hubspot'));
  }

  /** or the one with the domain. */
  lemma DomainThenNameMerge(tenant: string, name: string, hubspot: string, other: string, domain: string,
                            hubspot': string)
    requires Alike(name, other, domain) && (hubspot == "" || hubspot != hubspot')
    ensures Merges(tenant, Plain(other, [domain], hubspot'), Plain(name, [], hubspot))
  {
    NamedFitsSecond(tenant, name, hubspot, other, domain, hubspot');
    FittingMerge(tenant, other, [domain], hubspot', Plain(name, [], hubspot));
  }

  /** There are such companies: one named "a", and one named "b" with the domain "a". */
  lemma LettersAreAlike()
    ensures Alike("a", "b", "a")
  {
    NormalNameAgain(["a"]);
    NormalNameAgain(["b"]);
    NormaliseHost("a");
  }

  /**
   Companies whose names normalise to nothing, as those made of company words only, share one account whatever
   came before.
   */
  lemma BlankNamesMerge(s: Store, tenant: string, name: string)
    requires StoreOk(s) && Strip(name) != "" && Normalize(LegalName, name) == ""
    ensures var r := Plain(name, [], "");
            Mints(s, Input(tenant, r)) && Resolve(s, tenant, r) == AccountId(tenant, "")
  {
    NormalizeIgnoresSpace(LegalName, name);
    NotFoundWithout(s.index, tenant, Candidates(Plain(name, [], "")));
  }
}
