/** The admin override endpoint (src/app/api/admin/override/route.js): a field guard, then a
    status write through the order repository with no legality check, then one audit entry. */
module AdminOverrideRoute {
  import opened Wrappers
  import opened Model
  import opened OrderState
  import opened MemoryOrderRepository

  /** The JSON body. Only `orderId`, `status` and `reason` are read; `newStatus` and `comment`
      are what the dashboard sends. */
  datatype RequestBody = RequestBody(
    orderId: Option<string>,
    status: Option<string>,
    newStatus: Option<string>,
    reason: Option<string>,
    comment: Option<string>)

  datatype AuditEntry = AuditEntry(kind: string, orderId: string, reason: string, timestamp: int)

  /** The JSON responses, and the error the order repository throws, which the route does
      not catch. */
  datatype Outcome =
    | Responded(httpStatus: int, success: bool, message: Option<string>)
    | Threw

  const MissingFields: string := "Missing orderId or status"
  const DefaultReason: string := "Manual override"

  /** The order repository as the route sees it: `updateStatus(orderId, status)` either
      resolves or throws, and which ids it throws on is the store's own business (the file,
      KV, Prisma or in-memory store behind the repository factory). Every call is recorded. */
  class OrderStore {
    const failing: set<string>
    var calls: seq<(string, Status)>

    constructor (failing: set<string>)
      ensures this.failing == failing && calls == []
    {
      this.failing := failing;
      calls := [];
    }

    method UpdateStatus(orderId: string, next: Status) returns (ok: bool)
      modifies this
      ensures ok <==> orderId !in failing
      ensures calls == old(calls) + [(orderId, next)]
    {
      calls := calls + [(orderId, next)];
      ok := orderId !in failing;
    }
  }

  /** The admin action repository: an append-only log. */
  class AuditLog {
    var entries: seq<AuditEntry>

    constructor ()
      ensures entries == []
    {
      entries := [];
    }

    method Log(e: AuditEntry)
      modifies this
      ensures entries == old(entries) + [e]
    {
      entries := entries + [e];
    }
  }

  /** The guard: a missing or empty `orderId` or `status` is refused. */
  predicate Refused(body: RequestBody) {
    !Filled(body.orderId) || !Filled(body.status)
  }

  /** The audit entry written for an accepted body. */
  function EntryFor(body: RequestBody, now: int): (e: AuditEntry)
    requires !Refused(body)
    ensures e.kind == "ADMIN_OVERRIDE" && e.orderId == body.orderId.value && e.timestamp == now
    ensures e.reason == if Filled(body.reason) then body.reason.value else DefaultReason
  {
    AuditEntry("ADMIN_OVERRIDE", body.orderId.value, OrElse(body.reason, DefaultReason), now)
  }

  /** `POST(req)`. A refused body touches neither repository. Otherwise the route asks the
      order store for exactly one status write, with no legality check; a write that throws
      leaves the log untouched, since the log comes after the write, and a write that
      resolves is followed by exactly one audit entry. */
  method Post(body: RequestBody, orders: OrderStore, log: AuditLog, now: int)
    returns (out: Outcome)
    modifies orders, log
    ensures Refused(body) ==>
      out == Responded(400, false, Some(MissingFields)) && unchanged(orders) && unchanged(log)
    ensures !Refused(body) ==>
      orders.calls == old(orders.calls) + [(body.orderId.value, Parse(body.status.value))]
    ensures !Refused(body) && body.orderId.value in orders.failing ==>
      out == Threw && unchanged(log)
    ensures !Refused(body) && body.orderId.value !in orders.failing ==>
      out == Responded(200, true, None) && log.entries == old(log.entries) + [EntryFor(body, now)]
  {
    if Refused(body) {
      return Responded(400, false, Some(MissingFields));
    }
    var written := orders.UpdateStatus(body.orderId.value, Parse(body.status.value));
    if !written {
      return Threw;
    }
    log.Log(EntryFor(body, now));
    return Responded(200, true, None);
  }

  /** A body that names the status only as `newStatus` is refused. */
  lemma NewStatusAloneRefused(body: RequestBody)
    requires body.status.None? && body.newStatus.Some?
    ensures Refused(body)
  {
  }

  /** The route will move an order along a transition the validator rejects, out of a
      terminal status included: the write it asks for is not checked, and the in-memory
      store carries it out as `Stamped` whatever the pair. */
  lemma OverrideIgnoresValidator(o: Order, now: int)
    requires o.status == Completed
    ensures !IsValidTransition(OfOrder(o), New)
    ensures Stamped(o, New, now).status == New
  {
    TerminalStatuses(OfOrder(o), New);
  }
}
