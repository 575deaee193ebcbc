/** The expo station (src/components/ExpoDisplay.js): the OVEN orders by customer name, the
    optimistic mark-ready, and the reset to the server list. */
module ExpoDisplay {
  import opened Wrappers
  import opened Seqs
  import opened Model

  /** `ovenOrders`: the OVEN orders, sorted by customer name (a missing name as ''). */
  function ExpoQueue(orders: seq<Order>, rank: string -> int): (r: seq<Order>)
    ensures multiset(r) == multiset(Filter(orders, InOven))
    ensures forall i :: 0 <= i < |r| ==> r[i].status == Oven
    ensures forall i, j :: 0 <= i < j < |r| ==> rank(SortName(r[i])) <= rank(SortName(r[j]))
  {
    var r := SortBy(Filter(orders, InOven), ByName(rank));
    PermutedAll(r, Filter(orders, InOven), InOven);
    assert forall i, j :: 0 <= i < j < |r| ==> ByName(rank)(r[i]) <= ByName(rank)(r[j]);
    r
  }

  /** The station's local state. */
  datatype ExpoState = ExpoState(orders: seq<Order>, selected: Option<Order>)

  /** `updateStatusAction(orderId, 'READY')`. */
  datatype ReadyCall = ReadyCall(orderId: string, status: string)

  function NotOrder(id: string): Order -> bool {
    (o: Order) => o.id != id
  }

  /** `handleMarkReady(orderId)`: drop the order from the list, clear the selection, then
      ask the server to mark it READY. */
  function MarkReady(st: ExpoState, orderId: string): (r: (ExpoState, ReadyCall))
    ensures r.0.selected.None?
    ensures r.1 == ReadyCall(orderId, "READY")
    ensures forall i :: 0 <= i < |r.0.orders| ==> r.0.orders[i].id != orderId
    ensures forall o :: multiset(r.0.orders)[o] == if o.id != orderId then multiset(st.orders)[o] else 0
  {
    (ExpoState(Filter(st.orders, NotOrder(orderId)), None), ReadyCall(orderId, "READY"))
  }

  /** The removal keeps the other orders in their order: it works piecewise. */
  lemma MarkReadyKeepsOrder(a: seq<Order>, b: seq<Order>, sel: Option<Order>, orderId: string)
    ensures MarkReady(ExpoState(a + b, sel), orderId).0.orders ==
      MarkReady(ExpoState(a, sel), orderId).0.orders + MarkReady(ExpoState(b, sel), orderId).0.orders
  {
    FilterConcat(a, b, NotOrder(orderId));
  }

  /** The effect on `initialOrders`: the list becomes the server list, with no merge. */
  function Synced(st: ExpoState, initialOrders: seq<Order>): (r: ExpoState)
    ensures r.orders == initialOrders && r.selected == st.selected
  {
    st.(orders := initialOrders)
  }

  /** After a sync the queue is the server's, whatever was removed locally before. */
  lemma SyncForgetsLocalRemovals(st: ExpoState, orderId: string, initialOrders: seq<Order>, rank: string -> int)
    ensures ExpoQueue(Synced(MarkReady(st, orderId).0, initialOrders).orders, rank) == ExpoQueue(initialOrders, rank)
  {
  }

  /** An order marked ready leaves the queue at once, but comes back with the next sync while
      the server still lists it as OVEN, since the sync replaces the list. */
  lemma MarkedOrderReturns(st: ExpoState, o: Order, initialOrders: seq<Order>, rank: string -> int)
    requires o in initialOrders && o.status == Oven
    ensures o !in ExpoQueue(MarkReady(st, o.id).0.orders, rank)
    ensures o in ExpoQueue(Synced(MarkReady(st, o.id).0, initialOrders).orders, rank)
  {
    var marked := MarkReady(st, o.id).0.orders;
    assert multiset(ExpoQueue(marked, rank))[o] == multiset(Filter(marked, InOven))[o];
    assert multiset(marked)[o] == 0;
    assert multiset(Filter(initialOrders, InOven))[o] == multiset(initialOrders)[o];
  }
}
