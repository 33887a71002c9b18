/** When an approval stands, over any sequence of decisions about one work item. */
module Approvals {

  /**
   An accepted approval by a cro or admin; an accepted request for approval, rejection or reopening; anything
   else.
   */
  datatype Decision = Grants | Withdraws | Neither

  /** Some approval among the first n decisions has not been withdrawn since. */
  ghost predicate Stands(decisions: seq<Decision>, n: nat)
    requires n <= |decisions|
  {
    exists i :: 0 <= i < n && decisions[i] == Grants && forall j :: i < j < n ==> decisions[j] != Withdraws
  }

  /** How one decision carries an approval on. */
  predicate Carries(stands: bool, decision: Decision) {
    decision == Grants || (stands && decision != Withdraws)
  }

  lemma StandsNext(decisions: seq<Decision>, n: nat)
    requires n < |decisions|
    ensures Stands(decisions, n + 1) <==> Carries(Stands(decisions, n), decisions[n])
  {
    if Carries(Stands(decisions, n), decisions[n]) {
      if decisions[n] == Grants {
        assert 0 <= n < n + 1 && decisions[n] == Grants;
      } else {
        var i :| 0 <= i < n && decisions[i] == Grants && forall j :: i < j < n ==> decisions[j] != Withdraws;
        assert forall j :: i < j < n + 1 ==> decisions[j] != Withdraws;
      }
    }
    if Stands(decisions, n + 1) {
      var i :| 0 <= i < n + 1 && decisions[i] == Grants && forall j :: i < j < n + 1 ==> decisions[j] != Withdraws;
      if i < n {
        assert decisions[n] != Withdraws;
      }
    }
  }
}
