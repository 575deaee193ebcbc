/** The records the order lifecycle works on: statuses, orders, line items, employees,
    and the JavaScript truthiness rules the code applies to their fields. */
module Model {
  import opened Wrappers

  // ---------------------------------------------------------------- statuses

  /** The wire names of the statuses that ORDER_STATUS defines; each ORDER_STATUS.X is taken
      to be the string "X" (OrderEditModal.js compares `order.status` with these literals). */
  const KnownNames: set<string> :=
    {"NEW", "CONFIRMED", "IN_PREP", "MONITOR", "OVEN", "READY", "COMPLETED", "CANCELLED"}

  datatype StatusCode =
    | New | Confirmed | InPrep | Monitor | Oven | Ready | Completed | Cancelled
    | Other(name: string)

  /** A status string as the code sees it. An unknown string is `Other`, never a spelling of
      a known status, so datatype equality is string equality. */
  type Status = s: StatusCode | s.Other? ==> s.name !in KnownNames witness New

  /** The string stored in `order.status`. */
  function Wire(s: Status): string {
    match s
    case New => "NEW"
    case Confirmed => "CONFIRMED"
    case InPrep => "IN_PREP"
    case Monitor => "MONITOR"
    case Oven => "OVEN"
    case Ready => "READY"
    case Completed => "COMPLETED"
    case Cancelled => "CANCELLED"
    case Other(n) => n
  }

  /** Reads a status string. */
  function Parse(w: string): Status {
    if w == "NEW" then New
    else if w == "CONFIRMED" then Confirmed
    else if w == "IN_PREP" then InPrep
    else if w == "MONITOR" then Monitor
    else if w == "OVEN" then Oven
    else if w == "READY" then Ready
    else if w == "COMPLETED" then Completed
    else if w == "CANCELLED" then Cancelled
    else Other(w)
  }

  /** Reading what is stored gives the status back ... */
  lemma ParseWire(s: Status)
    ensures Parse(Wire(s)) == s
  {
  }

  /** ... and storing what is read gives the string back, so statuses and strings correspond one to one. */
  lemma WireParse(w: string)
    ensures Wire(Parse(w)) == w
  {
  }

  // ---------------------------------------------------------------- truthiness

  /** A field read where a boolean is expected: missing, a real boolean, or some other value. */
  datatype Flag = Absent | Bool(b: bool) | NonBool(truthy: bool)

  /** JavaScript truthiness of the field (`if (x)`, `Boolean(x)`). */
  predicate Truthy(f: Flag) {
    match f
    case Absent => false
    case Bool(b) => b
    case NonBool(t) => t
  }

  /** `x === true`. */
  predicate IsTrue(f: Flag) {
    f == Bool(true)
  }

  /** A strict `=== true` test implies truthiness but not the other way round. */
  lemma StrictTrueIsStronger()
    ensures forall f :: IsTrue(f) ==> Truthy(f)
    ensures Truthy(NonBool(true)) && !IsTrue(NonBool(true))
  {
  }

  /** An optional text field is truthy when present and non-empty. */
  predicate Filled(t: Option<string>) {
    t.Some? && t.value != ""
  }

  /** `t || fallback`. */
  function OrElse(t: Option<string>, fallback: string): (r: string)
    ensures Filled(t) ==> r == t.value
    ensures !Filled(t) ==> r == fallback
  {
    if Filled(t) then t.value else fallback
  }

  // ---------------------------------------------------------------- records

  /** `order.customerSnapshot`. */
  datatype Customer = Customer(name: Option<string>, phone: Option<string>)

  /** `item.toppings`: missing, an array of labels, or a preformatted string. */
  datatype Toppings = NoToppings | ToppingList(labels: seq<string>) | ToppingText(text: string)

  /** A line item of an order. */
  datatype Item = Item(
    name: string,
    size: Option<string>,
    crust: Option<string>,
    toppings: Toppings,
    notes: Option<string>)

  /** An order. Timestamps are milliseconds (a missing `updatedAt` is `None`). */
  datatype Order = Order(
    id: string,
    displayId: int,
    status: Status,
    assumeChefRole: Flag,
    customer: Customer,
    items: seq<Item>,
    isPriority: bool,
    assignedTo: Option<string>,
    createdAt: int,
    updatedAt: Option<int>,
    ovenEnteredAt: Option<int>,
    actualReadyAt: Option<int>,
    source: string)

  /** An employee as the staff screens and the employee repository hold it. */
  datatype Employee = Employee(
    id: string,
    name: string,
    role: string,
    isOnDuty: Flag,
    lastPunchTime: Option<int>)

  function OrderId(o: Order): string { o.id }

  function EmployeeId(e: Employee): string { e.id }

  function CreatedAt(o: Order): int { o.createdAt }

  /** The customer name used by the station sorts: `customerSnapshot.name || ''`. */
  function SortName(o: Order): (r: string)
    ensures r == OrElse(o.customer.name, "")
  {
    match o.customer.name
    case Some(n) => n
    case None => ""
  }

  /** The sort key the stations derive from `localeCompare` on that name: `rank` is the
      collation order, given as a caller-supplied map from names to positions. */
  function ByName(rank: string -> int): Order -> int {
    o => rank(SortName(o))
  }

  predicate InOven(o: Order) { o.status == Oven }
}
