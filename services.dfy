/** The client-safe service facade (src/lib/services.js): module-level handles set by
    `registerServerServices`, accessors that throw until they are set, the customer warning
    lookup and the employee duty toggle. */
module Services {
  import opened Wrappers
  import opened KeyedMap
  import opened Model
  import opened MemoryOrderRepository

  /** A customer warning; `phone` is `customerIdentifier?.phone`. */
  datatype Warning = Warning(reason: string, createdAt: int, isActive: Flag, phone: Option<string>)

  /** What `checkCustomerWarning` returns. */
  datatype WarningCheck = NoWarning | HasWarning(reason: string, createdAt: int)

  /** The error the accessors throw before registration. */
  datatype ServiceError = NotInitialized

  /** The order service object, which this model does not look inside. */
  datatype OrderServiceRef = OrderServiceRef(handle: nat)

  /** `w.isActive && w.customerIdentifier?.phone === phone`. */
  predicate Matches(w: Warning, phone: string) {
    Truthy(w.isActive) && w.phone == Some(phone)
  }

  /** `warnings.find(...)`: the first matching warning. */
  function FindActiveWarning(ws: seq<Warning>, phone: string): (r: Option<Warning>)
    ensures r.None? <==> forall i :: 0 <= i < |ws| ==> !Matches(ws[i], phone)
    ensures r.Some? ==> exists i :: 0 <= i < |ws| && ws[i] == r.value && Matches(ws[i], phone)
                                    && (forall j :: 0 <= j < i ==> !Matches(ws[j], phone))
  {
    if ws == [] then None
    else if Matches(ws[0], phone) then Some(ws[0])
    else
      var r := FindActiveWarning(ws[1..], phone);
      assert forall i :: 1 <= i < |ws| ==> ws[i] == ws[1..][i - 1];
      r
  }

  /** The employee repository as the toggle uses it. */
  class EmployeeStore {
    var employees: seq<Employee>
    var updateCalls: nat

    constructor (employees: seq<Employee>)
      ensures this.employees == employees && updateCalls == 0
    {
      this.employees := employees;
      updateCalls := 0;
    }

    /** `findById(id)`. */
    method FindById(id: string) returns (r: Option<Employee>)
      ensures r == Get(employees, id, EmployeeId)
    {
      r := Get(employees, id, EmployeeId);
    }

    /** `update(employee)`: the stored record with that id becomes `e`. */
    method Update(e: Employee)
      modifies this
      ensures e.id in Keys(old(employees), EmployeeId) ==> employees == Put(old(employees), e, EmployeeId)
      ensures e.id !in Keys(old(employees), EmployeeId) ==> employees == old(employees)
      ensures updateCalls == old(updateCalls) + 1
    {
      if e.id in Keys(employees, EmployeeId) {
        employees := Put(employees, e, EmployeeId);
      }
      updateCalls := updateCalls + 1;
    }
  }

  /** `repositories`: the stores the accessors reach. */
  class Registry {
    const orders: MemoryOrderRepository
    const employees: EmployeeStore
    var warnings: seq<Warning>

    constructor (orders: MemoryOrderRepository, employees: EmployeeStore, warnings: seq<Warning>)
      ensures this.orders == orders && this.employees == employees && this.warnings == warnings
    {
      this.orders := orders;
      this.employees := employees;
      this.warnings := warnings;
    }
  }

  /** The facade's module variables. */
  class Facade {
    var orderService: Option<OrderServiceRef>
    var repositories: Registry?

    constructor ()
      ensures orderService.None? && repositories == null
    {
      orderService := None;
      repositories := null;
    }

    /** `registerServerServices(services)`: sets both variables from the bundle. */
    method RegisterServerServices(service: Option<OrderServiceRef>, repos: Registry?)
      modifies this
      ensures orderService == service && repositories == repos
    {
      orderService := service;
      repositories := repos;
    }

    /** `getOrders()`: newest first once registered. */
    method GetOrders() returns (r: Result<seq<Order>, ServiceError>)
      ensures repositories == null ==> r == Err(NotInitialized)
      ensures repositories != null ==> r.Ok? && multiset(r.value) == multiset(repositories.orders.orders)
      ensures repositories != null ==> forall i, j :: 0 <= i < j < |r.value| ==> r.value[i].createdAt >= r.value[j].createdAt
    {
      if repositories == null {
        return Err(NotInitialized);
      }
      var all := repositories.orders.GetAll();
      return Ok(all);
    }

    /** `getWarnings()`. */
    method GetWarnings() returns (r: Result<seq<Warning>, ServiceError>)
      ensures r == if repositories == null then Err(NotInitialized) else Ok(repositories.warnings)
    {
      if repositories == null {
        return Err(NotInitialized);
      }
      return Ok(repositories.warnings);
    }

    /** `getEmployees()`. */
    method GetEmployees() returns (r: Result<seq<Employee>, ServiceError>)
      ensures r == if repositories == null then Err(NotInitialized) else Ok(repositories.employees.employees)
    {
      if repositories == null {
        return Err(NotInitialized);
      }
      return Ok(repositories.employees.employees);
    }

    /** `checkCustomerWarning(phone)`: throws before registration even for a falsy phone,
        since `ensureInit` runs first; a falsy phone reads no warnings. */
    method CheckCustomerWarning(phone: Option<string>) returns (r: Result<WarningCheck, ServiceError>)
      ensures repositories == null ==> r == Err(NotInitialized)
      ensures repositories != null && !Filled(phone) ==> r == Ok(NoWarning)
      ensures repositories != null && Filled(phone) ==>
        var found := FindActiveWarning(repositories.warnings, phone.value);
        r == Ok(if found.Some? then HasWarning(found.value.reason, found.value.createdAt) else NoWarning)
    {
      if repositories == null {
        return Err(NotInitialized);
      }
      if !Filled(phone) {
        return Ok(NoWarning);
      }
      var found := FindActiveWarning(repositories.warnings, phone.value);
      if found.Some? {
        return Ok(HasWarning(found.value.reason, found.value.createdAt));
      }
      return Ok(NoWarning);
    }

    /** `toggleEmployeeDuty(id, isOnDuty)`: false with no update for an unknown id; otherwise
        the found record with the new flag is written back with one `update` call. */
    method ToggleEmployeeDuty(id: string, isOnDuty: bool) returns (r: Result<bool, ServiceError>)
      modifies if repositories != null then {repositories.employees} else {}
      ensures repositories == null ==> r == Err(NotInitialized)
      ensures repositories != null ==>
        var store := repositories.employees;
        var before := old(store.employees);
        if id !in Keys(before, EmployeeId) then
          r == Ok(false) && store.employees == before && store.updateCalls == old(store.updateCalls)
        else
          r == Ok(true) && store.updateCalls == old(store.updateCalls) + 1
          && store.employees == Put(before, Get(before, id, EmployeeId).value.(isOnDuty := Bool(isOnDuty)), EmployeeId)
    {
      if repositories == null {
        return Err(NotInitialized);
      }
      var store := repositories.employees;
      var found := store.FindById(id);
      if found.None? {
        return Ok(false);
      }
      var employee := found.value.(isOnDuty := Bool(isOnDuty));
      store.Update(employee);
      return Ok(true);
    }
  }

  /** After a toggle of a known id, that id reads back with the requested flag and every other
      id reads what it read before. */
  lemma ToggledReadsBack(before: seq<Employee>, id: string, isOnDuty: bool, k: string)
    requires id in Keys(before, EmployeeId)
    ensures var after := Put(before, Get(before, id, EmployeeId).value.(isOnDuty := Bool(isOnDuty)), EmployeeId);
      Get(after, k, EmployeeId) ==
        if k == id then Some(Get(before, id, EmployeeId).value.(isOnDuty := Bool(isOnDuty)))
        else Get(before, k, EmployeeId)
  {
    GetPut(before, Get(before, id, EmployeeId).value.(isOnDuty := Bool(isOnDuty)), k, EmployeeId);
  }
}
