/**
 Signal resolution and relationship review as code over their tables (btx_platform/intelligence.py,
 btx_platform/api.py).
 */
module RelationshipTables {
  import opened Common
  import opened Identifiers
  import opened Identity
  import opened Relationships
  import opened RelationshipRuns
  import WorkItems

  /******* When a batch raises *******/

  lemma EnsureKeepsTwoActive(items: seq<ReviewItem>, rel: RelKey, k: RelKey)
    ensures TwoActive(EnsureItem(items, rel), k) <==> TwoActive(items, k)
  {
    var after := EnsureItem(items, rel);
    if TwoActive(items, k) {
      var i, j :| 0 <= i < j < |items| && items[i].rel == items[j].rel == k && Active(items[i].status)
          && Active(items[j].status);
      assert after[i] == items[i] && after[j] == items[j];
    }
  }

  lemma {:induction false} BatchKeepsTwoActive(lookup: Lookup, w: World, keys: seq<RelKey>, k: RelKey)
    ensures TwoActive(UpsertRels(lookup, w, keys).items, k) <==> TwoActive(w.items, k)
  {
    if keys != [] {
      var before, last := UpsertRels(lookup, w, keys[..|keys| - 1]), keys[|keys| - 1];
      BatchKeepsTwoActive(lookup, w, keys[..|keys| - 1], k);
      EnsureKeepsTwoActive(before.items, last, k);
    }
  }

  /** Whether the next relationship raises can be told from the tables before the batch. */
  lemma RaisesNext(lookup: Lookup, w: World, keys: seq<RelKey>, k: RelKey)
    requires !Raises(lookup, w, keys)
    ensures var now := UpsertRels(lookup, w, keys);
            Raises(lookup, w, keys + [k])
            <==> ResolvedRel(lookup, now, k).review == NeedsReview && TwoActive(now.items, k)
  {
    ResolvedRelStays(lookup, w, keys, k);
    BatchKeepsTwoActive(lookup, w, keys, k);
    assert k in keys + [k];
  }

  lemma KeysForNext(tenant: string, signal: string, entity: string, accounts: seq<AccountId>, j: nat)
    requires j < |accounts|
    ensures var keys := KeysFor(tenant, signal, entity, accounts);
            keys[..j + 1] == keys[..j] + [RelKey(tenant, signal, accounts[j], entity)]
  {
  }

  /** One more relationship, whatever has been written to the signals meanwhile. */
  lemma OneMore(lookup: Lookup, w: World, keys: seq<RelKey>, k: RelKey, now: World)
    requires !Raises(lookup, w, keys) && now == UpsertRels(lookup, w, keys).(signals := now.signals)
    ensures Raises(lookup, w, keys + [k])
        <==> ResolvedRel(lookup, now, k).review == NeedsReview && TwoActive(now.items, k)
    ensures UpsertRel(lookup, now, k) == UpsertRels(lookup, w, keys + [k]).(signals := now.signals)
    ensures now.index == w.index
  {
    RaisesNext(lookup, w, keys, k);
    OnlyHandledRowsChange(lookup, w, keys);
    SignalsDoNotMatter(lookup, UpsertRels(lookup, w, keys), now, k);
    assert (keys + [k])[..|keys|] == keys;
  }

  lemma {:induction false} PrefixKeys(lookup: Lookup, tenant: string, signal: string, entities: seq<string>, i: nat,
                                      order: Order)
    requires i <= |entities|
    ensures forall k: RelKey :: k in KeysOf(lookup, tenant, signal, entities[..i], order) ==>
        k in KeysOf(lookup, tenant, signal, entities, order)
  {
    if i < |entities| {
      var before := entities[..|entities| - 1];
      PrefixKeys(lookup, tenant, signal, before, i, order);
      assert before[..i] == entities[..i];
    } else {
      assert entities[..i] == entities;
    }
  }

  lemma RaisesMore(lookup: Lookup, w: World, some: seq<RelKey>, all: seq<RelKey>)
    requires Raises(lookup, w, some) && forall k: RelKey :: k in some ==> k in all
    ensures Raises(lookup, w, all)
  {
  }

  lemma SeeOneMore(items: seq<ReviewItem>, item: ReviewItem, rel: RelKey)
    ensures HasActive(items + [item], rel) <==> HasActive(items, rel) || (item.rel == rel && Active(item.status))
    ensures TwoActive(items + [item], rel)
        <==> TwoActive(items, rel) || (HasActive(items, rel) && item.rel == rel && Active(item.status))
  {
    var all := items + [item];
    if HasActive(items, rel) {
      var i :| 0 <= i < |items| && items[i].rel == rel && Active(items[i].status);
      assert all[i] == items[i] && all[|items|] == item;
    }
    if item.rel == rel && Active(item.status) {
      assert all[|items|] == item;
    }
    if TwoActive(items, rel) {
      var i, j :| 0 <= i < j < |items| && items[i].rel == items[j].rel == rel && Active(items[i].status)
          && Active(items[j].status);
      assert all[i] == items[i] && all[j] == items[j];
    }
  }

  lemma PrefixTwoActive(items: seq<ReviewItem>, i: nat, rel: RelKey)
    requires i <= |items| && TwoActive(items[..i], rel)
    ensures TwoActive(items, rel)
  {
    var a, b :| 0 <= a < b < i && items[..i][a].rel == items[..i][b].rel == rel && Active(items[..i][a].status)
        && Active(items[..i][b].status);
    assert items[a].rel == items[b].rel == rel;
  }

  class RelationshipTables {
    var index: Index
    var rels: map<RelKey, Rel>
    var audit: seq<AuditEvent>
    var items: seq<ReviewItem>
    var signals: map<string, Signal>

    constructor (accounts: Index)
      ensures Value() == World(accounts, map[], [], [], map[])
    {
      index, rels, audit, items, signals := accounts, map[], [], [], map[];
    }

    function Value(): World
      reads this
    {
      World(index, rels, audit, items, signals)
    }

    method IdentifierCandidates(keys: seq<IdKey>) returns (found: seq<IdKey>)
      ensures found == Registered(index, keys)
    {
      found := [];
      for i := 0 to |keys|
        invariant found == Registered(index, keys[..i])
      {
        assert keys[..i + 1][..i] == keys[..i];
        if keys[i].value != "" && keys[i] in index {
          found := found + [keys[i]];
        }
      }
      assert keys[..|keys|] == keys;
    }

    /** Looks for the active item by scanning; a second one is an error of the query. */
    method EnsureReviewItem(rel: RelKey) returns (raised: bool)
      modifies this`items
      ensures raised == TwoActive(old(items), rel)
      ensures items == if raised then old(items) else EnsureItem(old(items), rel)
    {
      var found := false;
      for i := 0 to |items|
        invariant items == old(items)
        invariant found <==> HasActive(items[..i], rel)
        invariant !TwoActive(items[..i], rel)
      {
        ghost var seen, next := items[..i], items[..i + 1];
        assert next == seen + [items[i]];
        SeeOneMore(seen, items[i], rel);
        if items[i].rel == rel && Active(items[i].status) {
          if found {
            PrefixTwoActive(items, i + 1, rel);
            return true;
          }
          found := true;
        }
      }
      assert items[..|items|] == items;
      if !found {
        items := items + [ReviewItem(rel, WorkItems.Detected)];
      }
      return false;
    }

    method UpsertRelationship(k: RelKey, m: Match, ghost lookup: Lookup) returns (raised: bool)
      requires m == lookup(k.tenant, k.entity)
      modifies this`rels, this`audit, this`items
      ensures raised == (ResolvedRel(lookup, old(Value()), k).review == NeedsReview && TwoActive(old(items), k))
      ensures !raised ==> Value() == UpsertRel(lookup, old(Value()), k)
    {
      var existing := k in rels;
      var row := if existing then rels[k] else Rel(m.how, 0.0, NeedsReview, [], None);
      row := row.(how := m.how);
      row := row.(confidence := m.confidence);
      row := row.(review := if existing && row.review in {Confirmed, Rejected} then row.review else m.review);
      row := row.(evidence := [k.signal]);
      if row.review == Confirmed && row.confirmedBy == None {
        row := row.(confirmedBy := Some("system"));
      }
      rels := rels[k := row];
      if !existing {
        audit := audit + [AuditEvent(k, "create_candidate")];
      }
      raised := false;
      if row.review == NeedsReview {
        raised := EnsureReviewItem(k);
      }
    }

    /** One entity of the signal; what it handled is added to the list of relationships. */
    method ResolveEntity(tenant: string, signal: string, entity: string, accounts: seq<AccountId>, m: Match,
                         done: seq<RelKey>,
                         ghost was: World, ghost lookup: Lookup)
        returns (relationships: seq<RelKey>, raised: bool)
      requires m == lookup(tenant, entity)
      requires !Raises(lookup, was, done) && Value() == UpsertRels(lookup, was, done).(signals := signals)
      modifies this`rels, this`audit, this`items
      ensures var all := done + KeysFor(tenant, signal, entity, accounts);
              && raised == Raises(lookup, was, all)
              && (!raised ==> relationships == all && Value() == UpsertRels(lookup, was, all).(signals := signals))
    {
      ghost var keys := KeysFor(tenant, signal, entity, accounts);
      relationships := done;
      for j := 0 to |accounts|
        invariant relationships == done + keys[..j] && !Raises(lookup, was, relationships)
        invariant Value() == UpsertRels(lookup, was, relationships).(signals := signals)
      {
        var k := RelKey(tenant, signal, accounts[j], entity);
        KeysForNext(tenant, signal, entity, accounts, j);
        assert done + keys[..j + 1] == relationships + [k];
        ghost var before := Value();
        OneMore(lookup, was, relationships, k, before);
        raised := UpsertRelationship(k, m, lookup);
        if raised {
          RaisesMore(lookup, was, relationships + [k], done + keys);
          return;
        }
        relationships := relationships + [k];
      }
      raised := false;
      assert keys[..|accounts|] == keys;
    }

    /** What the signal row ends with: the first confirmed account, or the mark that none is. */
    method LinkSignal(signal: string, relationships: seq<RelKey>)
      requires signal in signals
      modifies this`signals
      ensures signals == old(signals)[signal := LinkedSignal(old(signals)[signal], rels, relationships)]
    {
      for i := 0 to |relationships|
        invariant FirstConfirmed(rels, relationships) == FirstConfirmed(rels, relationships[i..])
      {
        assert relationships[i..][1..] == relationships[i + 1..];
        if relationships[i] in rels && rels[relationships[i]].review == Confirmed {
          signals := signals[signal := Signal(SpecificAccount, Subject(relationships[i].account))];
          return;
        }
      }
      if relationships != [] {
        signals := signals[signal := signals[signal].(scope := Unlinked)];
      } else {
        assert signals[signal := signals[signal]] == signals;
      }
    }

    method ResolveEntitiesInTurn(tenant: string, signal: string, entities: seq<string>, order: Order,
                                 ghost was: World, ghost keys: seq<RelKey>, ghost lookup: Lookup)
        returns (relationships: seq<RelKey>, raised: bool)
      requires Value() == was.(signals := signals) && lookup == LookupOf(index)
          && keys == KeysOf(lookup, tenant, signal, entities, order)
      modifies this`rels, this`audit, this`items
      ensures raised == Raises(lookup, was, keys)
      ensures !raised ==> relationships == keys && Value() == UpsertRels(lookup, was, keys).(signals := signals)
    {
      relationships, raised := [], false;
      for i := 0 to |entities|
        invariant relationships == KeysOf(lookup, tenant, signal, entities[..i], order)
            && !Raises(lookup, was, relationships)
        invariant Value() == UpsertRels(lookup, was, relationships).(signals := signals) && index == was.index
      {
        assert entities[..i + 1][..i] == entities[..i];
        var entity := Strip(entities[i]);
        if entity != "" {
          var found := IdentifierCandidates(LookupKeys(tenant, entity));
          var m := MatchOfKeys(index, found);
          relationships, raised :=
              ResolveEntity(tenant, signal, entity, order(m.accounts), m, relationships, was, lookup);
          if raised {
            PrefixKeys(lookup, tenant, signal, entities, i + 1, order);
            RaisesMore(lookup, was, KeysOf(lookup, tenant, signal, entities[..i + 1], order), keys);
            return;
          }
        }
      }
      assert entities[..|entities|] == entities;
      raised := false;
    }

    /** Links the signal to what its relationships say, or rolls everything back after an error. */
    method FinishSignal(signal: string, incoming: Signal, keys: seq<RelKey>, raised: bool, was: World,
                        ghost after: World)
      requires index == was.index && signals == was.signals[signal := incoming]
      requires !raised ==> Value() == after.(signals := signals)
      modifies this`rels, this`audit, this`items, this`signals
      ensures Value() == if raised then was
          else after.(signals := was.signals[signal := LinkedSignal(incoming, after.rels, keys)])
    {
      if raised {
        rels, audit, items, signals := was.rels, was.audit, was.items, was.signals;
      } else {
        LinkSignal(signal, keys);
      }
    }

    method ResolveHandling(tenant: string, signal: string, incoming: Signal, entities: seq<string>, order: Order,
                           ghost keys: seq<RelKey>, ghost lookup: Lookup)
        returns (relationships: seq<RelKey>, raised: bool)
      requires lookup == LookupOf(index) && keys == KeysOf(lookup, tenant, signal, entities, order)
      modifies this`rels, this`audit, this`items, this`signals
      ensures raised == Raises(lookup, old(Value()), keys) && (!raised ==> relationships == keys)
      ensures Value() == ResolveKeys(lookup, old(Value()), signal, incoming, keys)
    {
      var was := Value();
      signals := signals[signal := incoming];
      relationships, raised := ResolveEntitiesInTurn(tenant, signal, entities, order, was, keys, lookup);
      FinishSignal(signal, incoming, relationships, raised, was, UpsertRels(lookup, was, keys));
    }

    method ResolveSignalRelationships(tenant: string, signal: string, incoming: Signal, entities: seq<string>,
                                      order: Order)
        returns (relationships: seq<RelKey>, raised: bool)
      modifies this`rels, this`audit, this`items, this`signals
      ensures var keys := KeysOf(LookupOf(old(index)), tenant, signal, entities, order);
              raised == Raises(LookupOf(old(index)), old(Value()), keys) && (!raised ==> relationships == keys)
      ensures Value() == ResolveEntities(old(Value()), tenant, signal, incoming, entities, order)
    {
      relationships, raised := ResolveHandling(tenant, signal, incoming, entities, order,
                                               KeysOf(LookupOf(index), tenant, signal, entities,
                                                      order), LookupOf(index));
    }

    method CloseItems(rel: RelKey)
      modifies this`items
      ensures items == ClosedItems(old(items), rel)
    {
      for i := 0 to |items|
        invariant |items| == |old(items)|
        invariant forall j :: 0 <= j < i ==> items[j] == Closed(old(items)[j], rel)
        invariant forall j :: i <= j < |items| ==> items[j] == old(items)[j]
      {
        if items[i].rel == rel && items[i].status !in {WorkItems.Dismissed, WorkItems.Closed} {
          items := items[i := items[i].(status := WorkItems.Closed)];
        }
      }
    }

    method PatchSignalRelationship(k: RelKey, action: Action, actor: string) returns (reply: Reply)
      modifies this
      ensures (reply, Value()) == DoReview(old(Value()), k, action, actor)
    {
      if k !in rels {
        return NotFound;
      }
      var row := rels[k];
      var found := k.signal in signals;
      match action {
      case Confirm =>
        if row.evidence == [] {
          return NoEvidence;
        }
        row := row.(review := Confirmed);
        row := row.(how := if Strong(row.how) && row.how != ManualConfirmation then row.how else ManualConfirmation);
        row := row.(confidence := if row.confidence > MINIMUM_CONFIDENCE then row.confidence else MINIMUM_CONFIDENCE);
        row := row.(confirmedBy := Some(actor));
        if found {
          signals := signals[k.signal := Signal(SpecificAccount, Subject(k.account))];
        }
      case Reject =>
        row := row.(review := Rejected);
      case Reopen =>
        row := row.(review := NeedsReview);
      case _ =>
        row := row.(review := Rejected);
        if found {
          signals := signals[k.signal := Signal(if action == MarkMarket then Market else Program, Portfolio)];
        }
      }
      rels := rels[k := row];
      audit := audit + [AuditEvent(k, ActionName(action))];
      if action != Reopen {
        CloseItems(k);
      }
      assert !found || action in {Reject, Reopen} ==> signals == DoReview(old(Value()), k, action, actor).1.signals;
      return Ok;
    }
  }
}
