/** The demo-mode order store (src/infrastructure/repositories/MemoryOrderRepository.js): one
    array of orders, shared by every instance, that `create` appends to and `update` and
    `updateStatus` rewrite in place. Ids, times and generated ids are parameters. */
module MemoryOrderRepository {
  import opened Wrappers
  import opened Seqs
  import opened KeyedMap
  import opened Model

  /** The fields an `update` call carries; a missing field keeps the stored value. The `id`
      selects the entry and is written back unchanged. */
  datatype OrderPatch = OrderPatch(
    id: string,
    displayId: Option<int>,
    status: Option<Status>,
    assumeChefRole: Option<Flag>,
    customer: Option<Customer>,
    items: Option<seq<Item>>,
    isPriority: Option<bool>,
    assignedTo: Option<Option<string>>,
    createdAt: Option<int>,
    ovenEnteredAt: Option<Option<int>>,
    actualReadyAt: Option<Option<int>>,
    source: Option<string>)

  /** A patch that carries every field of `o`. */
  function FullPatch(o: Order): (p: OrderPatch)
    ensures p.id == o.id && p.status == Some(o.status) && p.items == Some(o.items)
  {
    OrderPatch(o.id, Some(o.displayId), Some(o.status), Some(o.assumeChefRole), Some(o.customer),
      Some(o.items), Some(o.isPriority), Some(o.assignedTo), Some(o.createdAt),
      Some(o.ovenEnteredAt), Some(o.actualReadyAt), Some(o.source))
  }

  /** A patch that carries only the id. */
  function EmptyPatch(id: string): (p: OrderPatch)
    ensures p.id == id && p.status.None? && p.items.None?
  {
    OrderPatch(id, None, None, None, None, None, None, None, None, None, None, None)
  }

  /** `{ ...existing, ...patch, updatedAt: now }`. */
  function Overlay(existing: Order, p: OrderPatch, now: int): (r: Order)
    ensures r.id == p.id && r.updatedAt == Some(now)
    ensures r.status == p.status.GetOr(existing.status)
    ensures r.items == p.items.GetOr(existing.items)
    ensures r.customer == p.customer.GetOr(existing.customer)
  {
    Order(
      p.id,
      p.displayId.GetOr(existing.displayId),
      p.status.GetOr(existing.status),
      p.assumeChefRole.GetOr(existing.assumeChefRole),
      p.customer.GetOr(existing.customer),
      p.items.GetOr(existing.items),
      p.isPriority.GetOr(existing.isPriority),
      p.assignedTo.GetOr(existing.assignedTo),
      p.createdAt.GetOr(existing.createdAt),
      Some(now),
      p.ovenEnteredAt.GetOr(existing.ovenEnteredAt),
      p.actualReadyAt.GetOr(existing.actualReadyAt),
      p.source.GetOr(existing.source))
  }

  /** An update that carries only the id changes nothing but `updatedAt`. */
  lemma OverlayEmpty(o: Order, now: int)
    ensures Overlay(o, EmptyPatch(o.id), now) == o.(updatedAt := Some(now))
  {
  }

  /** A full patch replaces every field, whatever was stored. */
  lemma OverlayFull(existing: Order, o: Order, now: int)
    ensures Overlay(existing, FullPatch(o), now) == o.(updatedAt := Some(now))
  {
  }

  /** Applying the same patch twice is applying it once (up to the clock). */
  lemma OverlayIdempotent(o: Order, p: OrderPatch, t1: int, t2: int)
    ensures Overlay(Overlay(o, p, t1), p, t2) == Overlay(o, p, t2)
  {
  }

  /** The record `create` stores: the given fields, a truthy given id or the generated one,
      source 'DEMO' and `updatedAt` now. */
  function Created(order: Order, generatedId: string, now: int): (r: Order)
    ensures r.id == (if order.id != "" then order.id else generatedId)
    ensures r.source == "DEMO" && r.updatedAt == Some(now)
    ensures r.(id := order.id, source := order.source, updatedAt := order.updatedAt) == order
  {
    order.(id := if order.id != "" then order.id else generatedId, source := "DEMO", updatedAt := Some(now))
  }

  /** The order after `updateStatus(id, next)` writes it in place: the status, `updatedAt`,
      and the oven or ready timestamp on every move to OVEN or READY. */
  function Stamped(o: Order, next: Status, now: int): (r: Order)
    ensures r.status == next && r.updatedAt == Some(now)
    ensures r.ovenEnteredAt == if next == Oven then Some(now) else o.ovenEnteredAt
    ensures r.actualReadyAt == if next == Ready then Some(now) else o.actualReadyAt
    ensures r.(status := o.status, updatedAt := o.updatedAt, ovenEnteredAt := o.ovenEnteredAt,
      actualReadyAt := o.actualReadyAt) == o
  {
    var s := o.(status := next, updatedAt := Some(now));
    var s := if next == Oven then s.(ovenEnteredAt := Some(now)) else s;
    if next == Ready then s.(actualReadyAt := Some(now)) else s
  }

  /** A second move into OVEN restamps the oven time: it is not kept from the first. */
  lemma RestampedOnEveryOvenEntry(o: Order, t1: int, t2: int, via: Status)
    requires t1 != t2
    ensures Stamped(Stamped(Stamped(o, Oven, t1), via, t1), Oven, t2).ovenEnteredAt == Some(t2)
  {
  }

  /** `getAll`'s comparator key: descending `createdAt`. */
  function NewestFirst(o: Order): int { -o.createdAt }

  /** The errors the repository throws. */
  datatype RepoError = NotFound(id: string)

  class MemoryOrderRepository {
    /** `mockOrders`. */
    var orders: seq<Order>

    constructor ()
      ensures orders == []
    {
      orders := [];
    }

    /** `getAll()`: a sorted copy, newest first; the store is untouched. */
    method GetAll() returns (r: seq<Order>)
      ensures multiset(r) == multiset(orders)
      ensures forall i, j :: 0 <= i < j < |r| ==> r[i].createdAt >= r[j].createdAt
    {
      r := SortBy(orders, NewestFirst);
      assert SortedBy(r, NewestFirst);
    }

    /** `findById(id)`: the first order with that id, or null. */
    method FindById(id: string) returns (r: Option<Order>)
      ensures r.None? <==> forall i :: 0 <= i < |orders| ==> orders[i].id != id
      ensures r.Some? ==> r.value.id == id
      ensures r.Some? ==> exists i :: 0 <= i < |orders| && orders[i] == r.value && (forall j :: 0 <= j < i ==> orders[j].id != id)
    {
      var i := IndexOfKey(orders, id, OrderId);
      if i == -1 {
        r := None;
        forall t | 0 <= t < |orders| ensures orders[t].id != id {
          assert Keys(orders, OrderId)[t] == orders[t].id;
        }
      } else {
        r := Some(orders[i]);
      }
    }

    /** `create(order)`: appends one record; there is no check for an id already stored. */
    method Create(order: Order, generatedId: string, now: int) returns (r: Order)
      modifies this
      ensures r == Created(order, generatedId, now)
      ensures orders == old(orders) + [r]
    {
      r := Created(order, generatedId, now);
      orders := orders + [r];
    }

    /** `update(order)`: overlays the patch on the first entry with its id, or throws. */
    method Update(p: OrderPatch, now: int) returns (r: Result<Order, RepoError>)
      modifies this
      ensures var i := IndexOfKey(old(orders), p.id, OrderId);
        if i == -1 then r == Err(NotFound(p.id)) && orders == old(orders)
        else r == Ok(Overlay(old(orders)[i], p, now)) && orders == old(orders)[i := r.value]
    {
      var i := IndexOfKey(orders, p.id, OrderId);
      if i == -1 {
        return Err(NotFound(p.id));
      }
      var updated := Overlay(orders[i], p, now);
      orders := orders[i := updated];
      return Ok(updated);
    }

    /** `updateStatus(orderId, nextStatus)`: rewrites the first entry with that id, with no
      check that the transition is allowed, or throws. */
    method UpdateStatus(orderId: string, next: Status, now: int) returns (r: Result<Order, RepoError>)
      modifies this
      ensures var i := IndexOfKey(old(orders), orderId, OrderId);
        if i == -1 then r == Err(NotFound(orderId)) && orders == old(orders)
        else r == Ok(Stamped(old(orders)[i], next, now)) && orders == old(orders)[i := r.value]
    {
      var i := IndexOfKey(orders, orderId, OrderId);
      if i == -1 {
        return Err(NotFound(orderId));
      }
      var order := Stamped(orders[i], next, now);
      orders := orders[i := order];
      return Ok(order);
    }
  }

  /** Creating an order under an id that is already stored leaves `findById` on the older one. */
  lemma DuplicateCreateShadowed(orders: seq<Order>, order: Order, generatedId: string, now: int)
    requires Created(order, generatedId, now).id in Keys(orders, OrderId)
    ensures Get(orders + [Created(order, generatedId, now)], Created(order, generatedId, now).id, OrderId) ==
      Get(orders, Created(order, generatedId, now).id, OrderId)
  {
    IndexOfKeyAppend(orders, Created(order, generatedId, now), Created(order, generatedId, now).id, OrderId);
  }

  /** An update of a stored id keeps the length, the key order and every other entry. */
  lemma UpdateKeepsOthers(orders: seq<Order>, p: OrderPatch, now: int, k: int)
    requires p.id in Keys(orders, OrderId)
    requires 0 <= k < |orders| && k != IndexOfKey(orders, p.id, OrderId)
    ensures var i := IndexOfKey(orders, p.id, OrderId);
      var after := orders[i := Overlay(orders[i], p, now)];
      |after| == |orders| && after[k] == orders[k] && Keys(after, OrderId) == Keys(orders, OrderId)
  {
    var i := IndexOfKey(orders, p.id, OrderId);
    var after := orders[i := Overlay(orders[i], p, now)];
    assert Keys(after, OrderId) == Keys(orders, OrderId) by {
      assert forall t :: 0 <= t < |orders| ==> Keys(after, OrderId)[t] == Keys(orders, OrderId)[t];
    }
  }
}
