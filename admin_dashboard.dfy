/** The admin dashboard (src/components/AdminDashboard.js): expanding rows, the delete-confirm
    guard and the override request with the state reset after it. */
module AdminDashboard {
  import opened Wrappers
  import opened Model
  import opened AdminOverrideRoute

  /** `toggleExpand(orderId)` on `expandedOrderIds`. */
  function ToggleExpand(ids: set<string>, orderId: string): (r: set<string>)
    ensures orderId in r <==> orderId !in ids
    ensures forall k :: k != orderId ==> (k in r <==> k in ids)
  {
    if orderId in ids then ids - {orderId} else ids + {orderId}
  }

  /** Toggling the same row twice restores the set. */
  lemma ToggleExpandTwice(ids: set<string>, orderId: string)
    ensures ToggleExpand(ToggleExpand(ids, orderId), orderId) == ids
  {
  }

  /** The dashboard state the override dialog uses. */
  datatype DashboardState = DashboardState(
    loading: Option<string>,
    overrideOrder: Option<Order>,
    reason: string,
    comment: string)

  /** The Confirm Delete button's `disabled`. */
  predicate ConfirmDisabled(st: DashboardState, overrideId: string) {
    st.reason == "" || (st.reason == "OTHER" && st.comment == "") || st.loading == Some(overrideId)
  }

  /** The body `handleOverride` posts: the status goes in `newStatus`. */
  function OverrideBody(orderId: string, status: Status, reason: string, comment: string): (b: RequestBody)
    ensures b.orderId == Some(orderId) && b.newStatus == Some(Wire(status)) && b.status.None?
    ensures b.reason == Some(reason) && b.comment == Some(comment)
  {
    RequestBody(Some(orderId), None, Some(Wire(status)), Some(reason), Some(comment))
  }

  /** The state while the request is in flight: `setLoading(orderId)`. */
  function Sending(st: DashboardState, orderId: string): (r: DashboardState)
    ensures ConfirmDisabled(r, orderId)
    ensures r.(loading := st.loading) == st
  {
    st.(loading := Some(orderId))
  }

  /** The state after the request: loading, the selected order, reason and comment cleared. */
  function AfterOverride(st: DashboardState): (r: DashboardState)
    ensures r.loading.None? && r.overrideOrder.None? && r.reason == "" && r.comment == ""
    ensures forall id :: ConfirmDisabled(r, id)
  {
    DashboardState(None, None, "", "")
  }

  /** The Confirm Delete click: `handleOverride(overrideOrder.id, CANCELLED, reason, comment)`.
      Without a selected order there is no button, and a disabled button sends nothing. */
  function Confirm(st: DashboardState): (r: Option<(RequestBody, DashboardState)>)
    ensures r.Some? <==> st.overrideOrder.Some? && !ConfirmDisabled(st, st.overrideOrder.value.id)
    ensures r.Some? ==>
      r.value.0 == OverrideBody(st.overrideOrder.value.id, Cancelled, st.reason, st.comment)
      && r.value.1 == AfterOverride(st)
  {
    if st.overrideOrder.None? || ConfirmDisabled(st, st.overrideOrder.value.id) then None
    else Some((OverrideBody(st.overrideOrder.value.id, Cancelled, st.reason, st.comment), AfterOverride(st)))
  }

  /** A click sends a request exactly when there is a reason, a comment when the reason is
      'OTHER', and the selected order is not already being sent; the request always carries
      the reason, so the route never has to fall back to 'Manual override'. */
  lemma ConfirmEnabledIff(st: DashboardState)
    requires st.overrideOrder.Some?
    ensures Confirm(st).Some? <==>
      st.reason != "" && (st.reason == "OTHER" ==> st.comment != "")
      && st.loading != Some(st.overrideOrder.value.id)
    ensures Confirm(st).Some? ==> Filled(Confirm(st).value.0.reason)
  {
  }

  /** While its request is in flight, a second click on the same order sends nothing, and
      after the reset no click sends anything until a new order and reason are chosen. */
  lemma NoDoubleSubmit(st: DashboardState)
    requires st.overrideOrder.Some?
    ensures Confirm(Sending(st, st.overrideOrder.value.id)).None?
    ensures Confirm(AfterOverride(st)).None?
  {
  }

  /** Every override the dashboard sends is refused by the route with 400, because the route
      reads `status` and the dashboard sends `newStatus`. */
  lemma DashboardOverrideRefused(orderId: string, status: Status, reason: string, comment: string)
    ensures Refused(OverrideBody(orderId, status, reason, comment))
  {
  }

  /** The body with the status in the field the route reads. */
  function CorrectedOverrideBody(orderId: string, status: Status, reason: string, comment: string): (b: RequestBody)
    ensures b.orderId == Some(orderId) && b.status == Some(Wire(status))
    ensures b.reason == Some(reason) && b.comment == Some(comment)
  {
    RequestBody(Some(orderId), Some(Wire(status)), Some(Wire(status)), Some(reason), Some(comment))
  }

  /** The corrected body passes the guard for any non-empty order id, the route writes the
      requested status, and the log records the dashboard's reason. */
  lemma CorrectedOverrideCancels(orderId: string, reason: string, comment: string, now: int)
    requires orderId != ""
    ensures var b := CorrectedOverrideBody(orderId, Cancelled, reason, comment);
      !Refused(b) && Parse(b.status.value) == Cancelled
      && EntryFor(b, now) == AuditEntry("ADMIN_OVERRIDE", orderId, if reason != "" then reason else DefaultReason, now)
  {
    ParseWire(Cancelled);
  }
}
