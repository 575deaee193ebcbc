/** The chef station (src/components/ChefDisplay.js): the chef-workflow orders being made,
    oldest first. */
module ChefDisplay {
  import opened Seqs
  import opened Model
  import opened OrderState

  /** `o.assumeChefRole === true` and a status of IN_PREP, OVEN or READY. */
  predicate ChefVisible(o: Order) {
    IsTrue(o.assumeChefRole) && (o.status == InPrep || o.status == Oven || o.status == Ready)
  }

  /** `chefOrders`: a filtered permutation of the input, sorted by creation time. */
  function ChefQueue(orders: seq<Order>): (r: seq<Order>)
    ensures multiset(r) == multiset(Filter(orders, ChefVisible))
    ensures forall i :: 0 <= i < |r| ==> r[i].assumeChefRole == Bool(true)
    ensures forall i :: 0 <= i < |r| ==> r[i].status in {InPrep, Oven, Ready}
    ensures forall i, j :: 0 <= i < j < |r| ==> r[i].createdAt <= r[j].createdAt
  {
    var r := SortBy(Filter(orders, ChefVisible), CreatedAt);
    PermutedAll(r, Filter(orders, ChefVisible), ChefVisible);
    assert SortedBy(r, CreatedAt);
    r
  }

  /** An order whose flag is truthy but not the boolean `true` runs the chef workflow in the
      validator yet never shows on this station. */
  lemma TruthyFlagNotShown(o: Order)
    requires o.assumeChefRole.NonBool? && Truthy(o.assumeChefRole)
    ensures ChefRole(OfOrder(o))
    ensures !ChefVisible(o)
  {
  }
}
