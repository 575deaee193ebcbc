/** The workflow part of the order editor (src/components/OrderEditModal.js): which status
    changes each station offers for an order, and the call a chosen action makes. */
module OrderEditModal {
  import opened Wrappers
  import opened Seqs
  import opened Model
  import opened OrderState

  /** `viewContext`: one of the three station names the table compares with, or any other
      string, which is never a spelling of those three. */
  datatype ViewName = Register | Kitchen | OvenStation | OtherView(name: string)

  type View = v: ViewName | v.OtherView? ==> v.name !in {"REGISTER", "KITCHEN", "OVEN"} witness Register

  /** Reads the `viewContext` string the way the table's `===` comparisons do. */
  function ParseView(w: string): (v: View)
    ensures v == Register <==> w == "REGISTER"
    ensures v == Kitchen <==> w == "KITCHEN"
    ensures v == OvenStation <==> w == "OVEN"
  {
    if w == "REGISTER" then Register
    else if w == "KITCHEN" then Kitchen
    else if w == "OVEN" then OvenStation
    else OtherView(w)
  }

  /** One action button: the status it requests, whether it is disabled, and the assignee it
      passes as `assignedToOverride` (the kitchen's Start Prep passes the chosen assignment). */
  datatype Offer = Offer(next: Status, disabled: bool, assigneeOverride: Option<string>)

  /** What `renderWorkflowActions` renders: nothing, the "No actions" notice, or buttons
      (with the assignee names the kitchen may pick from). */
  datatype Panel = Nothing | NoActions | Actions(offers: seq<Offer>, assignees: seq<string>)

  function Name(e: Employee): string { e.name }

  /** `employees.filter(e => e.isOnDuty)`, read as the names the select offers. */
  function OnDutyNames(employees: seq<Employee>): (r: seq<string>)
    ensures |r| <= |employees|
    ensures forall n :: n in r <==> exists e :: e in employees && Truthy(e.isOnDuty) && e.name == n
  {
    if employees == [] then []
    else
      var rest := OnDutyNames(employees[1..]);
      assert forall e :: e in employees <==> e == employees[0] || e in employees[1..];
      if Truthy(employees[0].isOnDuty) then [employees[0].name] + rest else rest
  }

  /** The decision table of `renderWorkflowActions`; `assignment` is the selected assignee. */
  function WorkflowPanel(view: View, status: Status, employees: seq<Employee>, assignment: string): Panel {
    if view == Register then
      if status == New || status == Confirmed then Actions([Offer(InPrep, false, None)], [])
      else NoActions
    else if view == Kitchen && (status == New || status == Confirmed) then
      Actions([Offer(InPrep, assignment == "", Some(assignment))], OnDutyNames(employees))
    else if view == Kitchen && (status == InPrep || status == Oven) then
      Actions([Offer(Monitor, false, None), Offer(Ready, false, None)], [])
    else if view == OvenStation && (status == Monitor || status == Oven) then
      Actions([Offer(Oven, false, None), Offer(Ready, false, None)], [])
    else Nothing
  }

  /** The statuses a panel offers. */
  function Offered(p: Panel): (r: set<Status>)
    ensures p.Actions? ==> forall o :: o in p.offers ==> o.next in r
    ensures !p.Actions? ==> r == {}
  {
    if p.Actions? then set o | o in p.offers :: o.next else {}
  }

  /** The table, row by row: REGISTER offers IN_PREP for NEW and CONFIRMED and a notice
      otherwise; KITCHEN offers IN_PREP, disabled without an assignment and assigning only
      on-duty staff, for NEW and CONFIRMED, and MONITOR and READY for IN_PREP and OVEN; OVEN
      offers OVEN and READY for MONITOR and OVEN; everything else offers nothing. */
  lemma {:induction false} WorkflowTable(view: View, status: Status, employees: seq<Employee>, assignment: string)
    ensures var p := WorkflowPanel(view, status, employees, assignment);
      Offered(p) ==
        if view == Register && (status == New || status == Confirmed) then {InPrep}
        else if view == Kitchen && (status == New || status == Confirmed) then {InPrep}
        else if view == Kitchen && (status == InPrep || status == Oven) then {Monitor, Ready}
        else if view == OvenStation && (status == Monitor || status == Oven) then {Oven, Ready}
        else {}
    ensures view == Register && status != New && status != Confirmed ==>
      WorkflowPanel(view, status, employees, assignment) == NoActions
    ensures view == Kitchen && (status == New || status == Confirmed) ==>
      var p := WorkflowPanel(view, status, employees, assignment);
      p.offers[0].disabled == (assignment == "")
      && forall n :: n in p.assignees ==> exists e :: e in employees && Truthy(e.isOnDuty) && e.name == n
  {
    var p := WorkflowPanel(view, status, employees, assignment);
    if p.Actions? {
      assert forall o :: o in p.offers <==> exists i :: 0 <= i < |p.offers| && p.offers[i] == o;
    }
  }

  /** Which offered moves the transition validator accepts: the table offers five moves it
      rejects, among them OVEN to OVEN (a self transition), READY straight from IN_PREP or
      MONITOR, OVEN back to MONITOR, and IN_PREP from NEW to an order in the chef workflow. */
  lemma OfferedVersusValidator(view: View, o: Order, employees: seq<Employee>, assignment: string, next: Status)
    requires next in Offered(WorkflowPanel(view, o.status, employees, assignment))
    ensures IsValidTransition(OfOrder(o), next) <==>
      !((o.status == Oven && next == Oven)
        || (o.status == InPrep && next == Ready)
        || (o.status == Monitor && next == Ready)
        || (o.status == Oven && next == Monitor)
        || (o.status == New && next == InPrep && Truthy(o.assumeChefRole)))
  {
    WorkflowTable(view, o.status, employees, assignment);
    TransitionTable(OfOrder(o), next);
  }

  /** The call `onStatusUpdate(order.id, newStatus, assignedToOverride || assignment)`. */
  datatype StatusCall = StatusCall(orderId: string, next: Status, assignee: string)

  /** What a chosen action does: the status call (none without a callback), whether
      `onPrint` ran, and whether the dialog closed. */
  datatype ActionEffect = ActionEffect(call: Option<StatusCall>, printed: bool, closed: bool)

  /** `shouldPrint` starts false and nothing sets it. */
  const ShouldPrint: bool := false

  /** `handleWorkflowAction(newStatus, assignedToOverride)`. */
  function HandleWorkflowAction(hasCallback: bool, hasPrint: bool, order: Order, next: Status,
                                assigneeOverride: Option<string>, assignment: string): (r: ActionEffect)
    ensures !hasCallback ==> r == ActionEffect(None, false, false)
    ensures hasCallback ==> r.closed && r.call.Some? && r.call.value.orderId == order.id && r.call.value.next == next
    ensures hasCallback ==> r.call.value.assignee == if Filled(assigneeOverride) then assigneeOverride.value else assignment
    ensures !r.printed
  {
    if !hasCallback then ActionEffect(None, false, false)
    else ActionEffect(Some(StatusCall(order.id, next, OrElse(assigneeOverride, assignment))), ShouldPrint && hasPrint, true)
  }
}
