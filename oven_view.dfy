/** The oven station (src/components/Oven.js): reconciling the server's order list with the
    browser's cached orders, the optimistic status change, and the oven queue. */
module OvenView {
  import opened Wrappers
  import opened Seqs
  import opened KeyedMap
  import opened Model

  // ---------------------------------------------------------------- reconciliation

  /** `new Date(o.updatedAt || 0).getTime()`. */
  function Time(o: Order): int { o.updatedAt.GetOr(0) }

  /** The keep-rule of the local `forEach`: a stored record stays unless the local copy is
      strictly newer. */
  predicate ServerStays(current: Order, local: Order) {
    Time(local) <= Time(current)
  }

  /** `Array.from(orderMap.values())` after both loops. */
  function Merged(server: seq<Order>, locals: seq<Order>): seq<Order> {
    PutAllUnless(PutAll([], server, OrderId), locals, OrderId, ServerStays)
  }

  /** The merge in the first effect, with its two loops. */
  method MergeOrders(server: seq<Order>, locals: seq<Order>) returns (r: seq<Order>)
    ensures r == Merged(server, locals)
  {
    var m: seq<Order> := [];
    var i := 0;
    while i < |server|
      invariant 0 <= i <= |server|
      invariant m == PutAll([], server[..i], OrderId)
    {
      assert server[..i + 1][..i] == server[..i];
      m := Put(m, server[i], OrderId);
      i := i + 1;
    }
    assert server[..i] == server;
    var j := 0;
    while j < |locals|
      invariant 0 <= j <= |locals|
      invariant m == PutAllUnless(PutAll([], server, OrderId), locals[..j], OrderId, ServerStays)
    {
      assert locals[..j + 1][..j] == locals[..j];
      var serverOrder := Get(m, locals[j].id, OrderId);
      if serverOrder.None? {
        m := Put(m, locals[j], OrderId);
      } else if Time(locals[j]) > Time(serverOrder.value) {
        m := Put(m, locals[j], OrderId);
      }
      j := j + 1;
    }
    assert locals[..j] == locals;
    r := m;
  }

  /** Every id from either list appears exactly once, server ids first in server order, then
      the local-only ids in local order. */
  lemma MergedIds(server: seq<Order>, locals: seq<Order>)
    ensures Keys(Merged(server, locals), OrderId) == Dedup(Keys(server, OrderId) + Keys(locals, OrderId))
    ensures Dedup(Keys(server, OrderId)) <= Keys(Merged(server, locals), OrderId)
    ensures Distinct(Keys(Merged(server, locals), OrderId))
  {
    assert Keys([], OrderId) == Dedup([]);
    KeysPutAll([], server, OrderId, []);
    assert [] + Keys(server, OrderId) == Keys(server, OrderId);
    KeysPutAllUnless(PutAll([], server, OrderId), locals, OrderId, ServerStays, Keys(server, OrderId));
    DedupPrefix(Keys(server, OrderId), Keys(locals, OrderId));
  }

  /** A local order whose id the server does not have is kept, unchanged. */
  lemma LocalOnlyKept(server: seq<Order>, locals: seq<Order>, j: int)
    requires Distinct(Keys(server, OrderId)) && Distinct(Keys(locals, OrderId))
    requires 0 <= j < |locals| && locals[j].id !in Keys(server, OrderId)
    ensures Get(Merged(server, locals), locals[j].id, OrderId) == Some(locals[j])
  {
    PutAllFromEmpty(server, locals[j].id, OrderId);
    GetPutAllUnlessMember(PutAll([], server, OrderId), locals, j, OrderId, ServerStays);
  }

  /** For an id on both sides, the local record wins exactly when it is strictly newer; on a tie
      or when older the server record stays. The winner is taken whole. */
  lemma NewerWins(server: seq<Order>, locals: seq<Order>, i: int, j: int)
    requires Distinct(Keys(server, OrderId)) && Distinct(Keys(locals, OrderId))
    requires 0 <= i < |server| && 0 <= j < |locals| && server[i].id == locals[j].id
    ensures Get(Merged(server, locals), locals[j].id, OrderId) ==
      if Time(locals[j]) > Time(server[i]) then Some(locals[j]) else Some(server[i])
  {
    PutAllFromEmpty(server, locals[j].id, OrderId);
    GetPutAllUnlessMember(PutAll([], server, OrderId), locals, j, OrderId, ServerStays);
  }

  /** A server order whose id the local list does not have is kept, unchanged. */
  lemma ServerOnlyKept(server: seq<Order>, locals: seq<Order>, i: int)
    requires Distinct(Keys(server, OrderId))
    requires 0 <= i < |server| && server[i].id !in Keys(locals, OrderId)
    ensures Get(Merged(server, locals), server[i].id, OrderId) == Some(server[i])
  {
    PutAllFromEmpty(server, server[i].id, OrderId);
    GetPutAllUnlessOther(PutAll([], server, OrderId), locals, server[i].id, OrderId, ServerStays);
  }

  /** A missing `updatedAt` loses to any positive local time and beats no local time. */
  lemma MissingTimeIsZero(server: Order, local: Order)
    requires server.updatedAt.None?
    ensures ServerStays(server, local) <==> Time(local) <= 0
  {
  }

  // ---------------------------------------------------------------- optimistic update

  /** `prev.map(o => o.id === orderId ? { ...o, status: newStatus } : o)`. */
  function WithStatus(orders: seq<Order>, orderId: string, next: Status): (r: seq<Order>)
    ensures |r| == |orders|
    ensures forall i :: 0 <= i < |orders| ==>
      r[i] == if orders[i].id == orderId then orders[i].(status := next) else orders[i]
  {
    if orders == [] then []
    else
      var head := if orders[0].id == orderId then orders[0].(status := next) else orders[0];
      [head] + WithStatus(orders[1..], orderId, next)
  }

  /** The optimistic update keeps the ids and their order, and every other field. */
  lemma WithStatusKeepsIds(orders: seq<Order>, orderId: string, next: Status)
    ensures Keys(WithStatus(orders, orderId, next), OrderId) == Keys(orders, OrderId)
    ensures Get(WithStatus(orders, orderId, next), orderId, OrderId) ==
      match Get(orders, orderId, OrderId)
      case None => None
      case Some(o) => Some(o.(status := next))
  {
    var r := WithStatus(orders, orderId, next);
    assert Keys(r, OrderId) == Keys(orders, OrderId) by {
      assert forall t :: 0 <= t < |orders| ==> Keys(r, OrderId)[t] == Keys(orders, OrderId)[t];
    }
    IndexOfKeySameKeys(r, orders, orderId, OrderId);
    var i := IndexOfKey(orders, orderId, OrderId);
    if i >= 0 {
      assert r[i] == orders[i].(status := next);
    }
  }

  // ---------------------------------------------------------------- oven queue

  predicate Waiting(o: Order) { o.status == Monitor }

  predicate OnStation(o: Order) { o.status == Monitor || o.status == Oven }

  /** Two name-sorted groups, the OVEN one first, make a queue with the properties below. */
  lemma GroupsInOrder(cooking: seq<Order>, waiting: seq<Order>, rank: string -> int)
    requires forall i :: 0 <= i < |cooking| ==> cooking[i].status == Oven
    requires forall i :: 0 <= i < |waiting| ==> waiting[i].status == Monitor
    requires SortedBy(cooking, ByName(rank)) && SortedBy(waiting, ByName(rank))
    ensures var r := cooking + waiting;
      (forall i :: 0 <= i < |r| ==> OnStation(r[i]))
      && (forall i, j :: 0 <= i < j < |r| && r[j].status == Oven ==> r[i].status == Oven)
      && (forall i, j :: 0 <= i < j < |r| && r[i].status == r[j].status ==>
            rank(SortName(r[i])) <= rank(SortName(r[j])))
  {
    var r := cooking + waiting;
    forall i, j | 0 <= i < j < |r| && r[i].status == r[j].status
      ensures rank(SortName(r[i])) <= rank(SortName(r[j]))
    {
      if j < |cooking| {
        assert ByName(rank)(cooking[i]) <= ByName(rank)(cooking[j]);
      } else if i >= |cooking| {
        assert ByName(rank)(waiting[i - |cooking|]) <= ByName(rank)(waiting[j - |cooking|]);
      }
    }
  }

  /** `ovenOrders`: the MONITOR and OVEN orders, OVEN first, each group by customer name.
      The comparator puts every OVEN order first and otherwise compares names, so with a
      stable sort the result is the two name-sorted groups one after the other. */
  function OvenQueue(orders: seq<Order>, rank: string -> int): (r: seq<Order>)
    ensures multiset(r) == multiset(Filter(orders, OnStation))
    ensures forall i :: 0 <= i < |r| ==> OnStation(r[i])
    ensures forall i, j :: 0 <= i < j < |r| && r[j].status == Oven ==> r[i].status == Oven
    ensures forall i, j :: 0 <= i < j < |r| && r[i].status == r[j].status ==>
      rank(SortName(r[i])) <= rank(SortName(r[j]))
  {
    var cooking := SortBy(Filter(orders, InOven), ByName(rank));
    var waiting := SortBy(Filter(orders, Waiting), ByName(rank));
    FilterSplit(orders, InOven, Waiting, OnStation);
    PermutedAll(cooking, Filter(orders, InOven), InOven);
    PermutedAll(waiting, Filter(orders, Waiting), Waiting);
    GroupsInOrder(cooking, waiting, rank);
    cooking + waiting
  }
}
