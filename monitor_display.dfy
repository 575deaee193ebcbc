/** The prep monitor (src/components/MonitorDisplay.js): which orders it lists, in what order,
    and the ingredient list it shows for each item. */
module MonitorDisplay {
  import opened Wrappers
  import opened Seqs
  import opened KeyedMap
  import opened Model
  import opened OrderState

  /** The literal `'PREP'` the display filters on. It is not one of the known status names. */
  const PrepLiteral: Status := Other("PREP")

  predicate IsPrepLiteral(o: Order) { o.status == PrepLiteral }

  /** `displayOrders`: the orders whose status string is exactly 'PREP', oldest first. */
  function DisplayOrders(orders: seq<Order>): (r: seq<Order>)
    ensures multiset(r) == multiset(Filter(orders, IsPrepLiteral))
    ensures forall i :: 0 <= i < |r| ==> r[i].status == Other("PREP")
    ensures forall i, j :: 0 <= i < j < |r| ==> r[i].createdAt <= r[j].createdAt
  {
    var r := SortBy(Filter(orders, IsPrepLiteral), CreatedAt);
    PermutedAll(r, Filter(orders, IsPrepLiteral), IsPrepLiteral);
    assert SortedBy(r, CreatedAt);
    r
  }

  /** No order in a known status is listed: an order moved only through the transition
      validator is never shown, IN_PREP included. */
  lemma KnownStatusesNotShown(orders: seq<Order>)
    requires forall i :: 0 <= i < |orders| ==> !orders[i].status.Other?
    ensures DisplayOrders(orders) == []
  {
  }

  /** Why no validated move makes an order appear here. */
  lemma NoValidMoveIntoPrepLiteral(x: Subject)
    ensures !IsValidTransition(x, PrepLiteral)
  {
    TransitionTable(x, PrepLiteral);
  }

  // ---------------------------------------------------------------- ingredients

  /** A catalog entry; `ingredients` may be missing. */
  datatype MenuItem = MenuItem(name: string, ingredients: Option<seq<string>>)

  function MenuName(m: MenuItem): string { m.name }

  function NotTopping(labels: set<string>): string -> bool {
    ing => ing !in labels
  }

  /** `menuItem?.ingredients?.filter(ing => !toppingLabels.has(ing)) || []`, for the first
      catalog entry with the item's name. */
  function BaseIngredients(item: Item, menu: seq<MenuItem>, labels: set<string>): (r: seq<string>)
    ensures var m := Get(menu, item.name, MenuName);
      if m.Some? && m.value.ingredients.Some? then
        forall x :: x in r <==> x in m.value.ingredients.value && x !in labels
      else r == []
  {
    var m := Get(menu, item.name, MenuName);
    if m.Some? && m.value.ingredients.Some? then
      var r := Filter(m.value.ingredients.value, NotTopping(labels));
      assert forall x :: x in r <==> multiset(r)[x] > 0;
      r
    else []
  }

  /** `item.toppings || []`, spread: a list gives its labels, a text its characters. */
  function SelectedToppings(t: Toppings): (r: seq<string>)
    ensures t.NoToppings? ==> r == []
    ensures t.ToppingList? ==> r == t.labels
    ensures t.ToppingText? ==> |r| == |t.text| && forall i :: 0 <= i < |r| ==> r[i] == [t.text[i]]
  {
    match t
    case NoToppings => []
    case ToppingList(labels) => labels
    case ToppingText(text) => seq(|text|, i requires 0 <= i < |text| => [text[i]])
  }

  /** `getFullIngredients(item)`: the base ingredients then the toppings, each once, in the order
      of first occurrence. */
  function FullIngredients(item: Item, menu: seq<MenuItem>, labels: set<string>): (r: seq<string>)
    ensures forall x :: x in r <==>
      x in BaseIngredients(item, menu, labels) || x in SelectedToppings(item.toppings)
    ensures Distinct(r)
    ensures Dedup(BaseIngredients(item, menu, labels)) <= r
    ensures r == Dedup(BaseIngredients(item, menu, labels) + SelectedToppings(item.toppings))
    ensures var all := BaseIngredients(item, menu, labels) + SelectedToppings(item.toppings);
      forall i, j :: 0 <= i < j < |r| ==> IndexOf(all, r[i]) < IndexOf(all, r[j])
  {
    var base := BaseIngredients(item, menu, labels);
    DedupPrefix(base, SelectedToppings(item.toppings));
    Dedup(base + SelectedToppings(item.toppings))
  }

  /** Every selected topping is shown. */
  lemma ToppingsAllShown(item: Item, menu: seq<MenuItem>, labels: set<string>, i: int)
    requires 0 <= i < |SelectedToppings(item.toppings)|
    ensures SelectedToppings(item.toppings)[i] in FullIngredients(item, menu, labels)
  {
  }
}
