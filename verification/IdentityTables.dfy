/** The canonical-account upsert as code over its two tables (btx_platform/intelligence.py). */
module IdentityTables {
  import opened Common
  import opened Identifiers
  import opened Identity

  /** The store after a batch of records of one tenant. */
  ghost function UpsertRecords(s: Store, tenant: string, records: seq<Record>): Store {
    if records == [] then s
    else Upsert(UpsertRecords(s, tenant, records[..|records| - 1]), tenant, records[|records| - 1])
  }

  /** Source ids point at the account their record resolved to; a later record wins. */
  ghost function IdMap(s: Store, tenant: string, records: seq<Record>): map<string, AccountId> {
    if records == [] then map[]
    else
      var before, last := records[..|records| - 1], records[|records| - 1];
      var ids := IdMap(s, tenant, before);
      if Strip(last.name) == "" then ids
      else ids + map x | x in last.sourceIds && x != "" :: Resolve(UpsertRecords(s, tenant, before), tenant, last)
  }

  class CanonicalTables {
    var index: Index
    var accounts: Accounts

    constructor ()
      ensures Value() == Store(map[], map[])
    {
      index, accounts := map[], map[];
    }

    function Value(): Store
      reads this
    {
      Store(index, accounts)
    }

    method UpsertIdentifier(tenant: string, account: AccountId, idType: IdType, original: string, verified: bool)
      modifies this`index
      ensures index == Identity.UpsertIdentifier(old(index), tenant, account, Claim(idType, original, verified))
    {
      if Strip(original) == "" {
        return;
      }
      var normalized := Normalize(idType, original);
      if normalized == "" {
        return;
      }
      var key := IdKey(tenant, idType, normalized);
      if key in index {
        var existing := index[key];
        if existing.account == account {
          existing := existing.(original := original);
          existing := existing.(verified := existing.verified || verified);
          index := index[key := existing];
        }
        return;
      }
      index := index[key := Identifier(account, original, verified)];
    }

    method UpsertIdentifiers(tenant: string, account: AccountId, claims: seq<Claim>)
      modifies this`index
      ensures index == UpsertAll(old(index), tenant, account, claims)
    {
      for i := 0 to |claims|
        invariant index == UpsertAll(old(index), tenant, account, claims[..i])
      {
        assert claims[..i + 1][..i] == claims[..i];
        UpsertIdentifier(tenant, account, claims[i].idType, claims[i].original, claims[i].verified);
      }
      assert claims[..|claims|] == claims;
    }

    /** The tenant's account with this HubSpot id; the uniqueness constraint makes it the only one. */
    method QueryByHubSpot(tenant: string, hubspot: string) returns (found: Option<AccountId>)
      requires HubSpotUnique(accounts)
      ensures found == ByHubSpot(accounts, tenant, hubspot)
    {
      found := None;
      var todo := accounts.Keys;
      while hubspot != "" && found.None? && todo != {}
        invariant todo <= accounts.Keys
        invariant found.Some? ==> HasHubSpot(accounts, tenant, hubspot, found.value)
        invariant forall id: AccountId ::
            id in accounts && id !in todo && HasHubSpot(accounts, tenant, hubspot, id) ==> found == Some(id)
        decreases |todo|
      {
        var id :| id in todo;
        todo := todo - {id};
        if id.tenant == tenant && accounts[id].hubspot == hubspot {
          found := Some(id);
        }
      }
    }

    method FindExistingAccount(tenant: string, r: Record) returns (found: Option<AccountId>)
      requires HubSpotUnique(accounts)
      ensures found == FindExisting(Value(), tenant, r)
    {
      found := QueryByHubSpot(tenant, r.hubspot);
      if found.Some? {
        return;
      }
      var candidates := Candidates(r);
      for i := 0 to |candidates|
        invariant FirstVerified(index, tenant, candidates) == FirstVerified(index, tenant, candidates[i..])
      {
        assert candidates[i..][1..] == candidates[i + 1..];
        var key := KeyOf(tenant, candidates[i]);
        if key in index && index[key].verified {
          var owner := index[key].account;
          return if owner in accounts then Some(owner) else None;
        }
      }
      return None;
    }

    method UpsertCanonicalAccount(tenant: string, r: Record) returns (id: AccountId)
      requires StoreOk(Value()) && Strip(r.name) != ""
      modifies this
      ensures Value() == Upsert(old(Value()), tenant, r) && id == Resolve(old(Value()), tenant, r)
    {
      var name := Strip(r.name);
      var existing := FindExistingAccount(tenant, r);
      id := if existing.Some? then existing.value else AccountId(tenant, Basis(r));
      var row := if existing.Some? then accounts[existing.value] else BLANK;
      row := UpdatedAccount(row, r);
      accounts := accounts[id := row];
      UpsertIdentifiers(tenant, id, Claims(name, row.hubspot, r));
    }

    method UpsertCanonicalAccounts(tenant: string, records: seq<Record>) returns (idMap: map<string, AccountId>)
      requires StoreOk(Value())
      modifies this
      ensures Value() == UpsertRecords(old(Value()), tenant, records) && StoreOk(Value())
      ensures idMap == IdMap(old(Value()), tenant, records)
    {
      idMap := map[];
      for i := 0 to |records|
        invariant Value() == UpsertRecords(old(Value()), tenant, records[..i]) && StoreOk(Value())
        invariant idMap == IdMap(old(Value()), tenant, records[..i])
      {
        assert records[..i + 1][..i] == records[..i];
        var r := records[i];
        UpsertKeeps(Value(), tenant, r);
        if Strip(r.name) != "" {
          var id := UpsertCanonicalAccount(tenant, r);
          idMap := idMap + map x | x in r.sourceIds && x != "" :: id;
        }
      }
      assert records[..|records|] == records;
    }
  }
}
