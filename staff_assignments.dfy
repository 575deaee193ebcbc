/** The staff panel (src/components/StaffAssignmentsModal.js): merging the server's employees
    with locally stored ones, and the optimistic add, duty-toggle and delete list updates. */
module StaffAssignments {
  import opened Wrappers
  import opened Seqs
  import opened KeyedMap
  import opened Model

  // ---------------------------------------------------------------- merge

  /** `{ ...e, isOnDuty: Boolean(e.isOnDuty) }`. */
  function Normalize(e: Employee): (r: Employee)
    ensures r.isOnDuty == Bool(Truthy(e.isOnDuty))
    ensures r.(isOnDuty := e.isOnDuty) == e
  {
    e.(isOnDuty := Bool(Truthy(e.isOnDuty)))
  }

  function Normalized(es: seq<Employee>): (r: seq<Employee>)
    ensures |r| == |es|
    ensures forall i :: 0 <= i < |es| ==> r[i] == Normalize(es[i])
  {
    seq(|es|, i requires 0 <= i < |es| => Normalize(es[i]))
  }

  /** `Array.from(empMap.values())`: server employees first, then every local one set over them. */
  function MergedStaff(server: seq<Employee>, locals: seq<Employee>): seq<Employee> {
    PutAll(PutAll([], Normalized(server), EmployeeId), Normalized(locals), EmployeeId)
  }

  /** The merge in the loading effect, with its two `forEach` loops. */
  /** Normalizing one more record extends the normalized prefix by that record. */
  lemma NormalizedStep(es: seq<Employee>, i: nat)
    requires i < |es|
    ensures Normalized(es[..i + 1]) == Normalized(es[..i]) + [Normalize(es[i])]
  {
  }

  method MergeEmployees(server: seq<Employee>, locals: seq<Employee>) returns (r: seq<Employee>)
    ensures r == MergedStaff(server, locals)
  {
    var m: seq<Employee> := [];
    var i := 0;
    while i < |server|
      invariant 0 <= i <= |server|
      invariant m == PutAll([], Normalized(server[..i]), EmployeeId)
    {
      NormalizedStep(server, i);
      PutAllSnoc([], Normalized(server[..i]), Normalize(server[i]), EmployeeId);
      m := Put(m, Normalize(server[i]), EmployeeId);
      i := i + 1;
    }
    assert server[..i] == server;
    var j := 0;
    while j < |locals|
      invariant 0 <= j <= |locals|
      invariant m == PutAll(PutAll([], Normalized(server), EmployeeId), Normalized(locals[..j]), EmployeeId)
    {
      NormalizedStep(locals, j);
      PutAllSnoc(PutAll([], Normalized(server), EmployeeId), Normalized(locals[..j]), Normalize(locals[j]), EmployeeId);
      m := Put(m, Normalize(locals[j]), EmployeeId);
      j := j + 1;
    }
    assert locals[..j] == locals;
    r := m;
  }

  lemma KeysNormalized(es: seq<Employee>)
    ensures Keys(Normalized(es), EmployeeId) == Keys(es, EmployeeId)
  {
  }

  /** Every id of either list appears exactly once, server ids first. */
  lemma MergedStaffIds(server: seq<Employee>, locals: seq<Employee>)
    ensures Keys(MergedStaff(server, locals), EmployeeId) == Dedup(Keys(server, EmployeeId) + Keys(locals, EmployeeId))
    ensures Distinct(Keys(MergedStaff(server, locals), EmployeeId))
  {
    KeysNormalized(server);
    KeysNormalized(locals);
    assert Keys([], EmployeeId) == Dedup([]);
    KeysPutAll([], Normalized(server), EmployeeId, []);
    assert [] + Keys(server, EmployeeId) == Keys(server, EmployeeId);
    KeysPutAll(PutAll([], Normalized(server), EmployeeId), Normalized(locals), EmployeeId, Keys(server, EmployeeId));
  }

  /** For any id stored locally, the local record wins, whatever the server holds; there is
      no timestamp comparison. */
  lemma LocalAlwaysWins(server: seq<Employee>, locals: seq<Employee>, j: int)
    requires Distinct(Keys(locals, EmployeeId))
    requires 0 <= j < |locals|
    ensures Get(MergedStaff(server, locals), locals[j].id, EmployeeId) == Some(Normalize(locals[j]))
  {
    KeysNormalized(locals);
    GetPutAllMember(PutAll([], Normalized(server), EmployeeId), Normalized(locals), j, EmployeeId);
  }

  /** An id only the server has keeps the server record. */
  lemma ServerOnlyStaffKept(server: seq<Employee>, locals: seq<Employee>, i: int)
    requires Distinct(Keys(server, EmployeeId))
    requires 0 <= i < |server| && server[i].id !in Keys(locals, EmployeeId)
    ensures Get(MergedStaff(server, locals), server[i].id, EmployeeId) == Some(Normalize(server[i]))
  {
    KeysNormalized(server);
    KeysNormalized(locals);
    PutAllFromEmpty(Normalized(server), server[i].id, EmployeeId);
    GetPutAllOther(PutAll([], Normalized(server), EmployeeId), Normalized(locals), server[i].id, EmployeeId);
  }

  predicate HasBooleanDuty(e: Employee) { e.isOnDuty.Bool? }

  /** Every merged record carries a real boolean `isOnDuty`. */
  lemma MergedDutyIsBoolean(server: seq<Employee>, locals: seq<Employee>)
    ensures forall i :: 0 <= i < |MergedStaff(server, locals)| ==> HasBooleanDuty(MergedStaff(server, locals)[i])
  {
    PutAllFrom([], Normalized(server), EmployeeId, HasBooleanDuty);
    PutAllFrom(PutAll([], Normalized(server), EmployeeId), Normalized(locals), EmployeeId, HasBooleanDuty);
  }

  // ---------------------------------------------------------------- toggle and delete

  /** The optimistic punch in/out of `target`: `isOnDuty` becomes `!target.isOnDuty` on every
      record with its id, and the punch time is set on going on duty and kept on going off. */
  function ToggleDuty(employees: seq<Employee>, target: Employee, now: int): (r: seq<Employee>)
    ensures |r| == |employees|
    ensures forall i :: 0 <= i < |employees| && employees[i].id != target.id ==> r[i] == employees[i]
    ensures forall i :: 0 <= i < |employees| && employees[i].id == target.id ==>
      r[i].isOnDuty == Bool(!Truthy(target.isOnDuty))
      && r[i].lastPunchTime == (if Truthy(target.isOnDuty) then employees[i].lastPunchTime else Some(now))
      && r[i].(isOnDuty := employees[i].isOnDuty, lastPunchTime := employees[i].lastPunchTime) == employees[i]
  {
    if employees == [] then []
    else
      var e := employees[0];
      var on := !Truthy(target.isOnDuty);
      var head := if e.id == target.id then e.(isOnDuty := Bool(on), lastPunchTime := if on then Some(now) else e.lastPunchTime) else e;
      [head] + ToggleDuty(employees[1..], target, now)
  }

  /** Punching the same employee in and then out (reading the refreshed row) restores the duty
      flag, as a boolean, and keeps the punch-in time. */
  lemma ToggleTwice(employees: seq<Employee>, k: int, now1: int, now2: int)
    requires 0 <= k < |employees|
    ensures var once := ToggleDuty(employees, employees[k], now1);
      var twice := ToggleDuty(once, once[k], now2);
      |twice| == |employees| && twice[k].isOnDuty == Bool(Truthy(employees[k].isOnDuty))
      && (!Truthy(employees[k].isOnDuty) ==> twice[k].lastPunchTime == Some(now1))
  {
  }

  /** The filter test `e => e.id !== id`. */
  function NotId(id: string): Employee -> bool {
    (e: Employee) => e.id != id
  }

  /** `prev.filter(e => e.id !== id)`. */
  function WithoutEmployee(employees: seq<Employee>, id: string): (r: seq<Employee>)
    ensures forall i :: 0 <= i < |r| ==> r[i].id != id
    ensures forall e :: multiset(r)[e] == if e.id != id then multiset(employees)[e] else 0
  {
    Filter(employees, NotId(id))
  }

  /** Delete keeps the others in order: it works piecewise, and an absent id changes nothing. */
  lemma WithoutEmployeeKeepsOrder(a: seq<Employee>, b: seq<Employee>, id: string)
    ensures WithoutEmployee(a + b, id) == WithoutEmployee(a, id) + WithoutEmployee(b, id)
    ensures id !in Keys(a, EmployeeId) ==> WithoutEmployee(a, id) == a
  {
    FilterConcat(a, b, NotId(id));
    if id !in Keys(a, EmployeeId) {
      assert forall i :: 0 <= i < |a| ==> Keys(a, EmployeeId)[i] == a[i].id;
      FilterAll(a, NotId(id));
    }
  }

  // ---------------------------------------------------------------- add

  /** The characters `String.prototype.trim` strips, restricted to the ASCII ones and NBSP. */
  predicate IsSpace(c: char) {
    c == ' ' || c == '\t' || c == '\n' || c == '\r' || c == '\U{000B}' || c == '\U{000C}' || c == '\U{00A0}'
  }

  function TrimStart(s: string): (r: string)
    ensures |r| <= |s| && r == s[|s| - |r|..]
    ensures r != [] ==> !IsSpace(r[0])
    ensures forall i :: 0 <= i < |s| - |r| ==> IsSpace(s[i])
  {
    if s != [] && IsSpace(s[0]) then TrimStart(s[1..]) else s
  }

  function TrimEnd(s: string): (r: string)
    ensures |r| <= |s| && r == s[..|r|]
    ensures r != [] ==> !IsSpace(r[|r| - 1])
    ensures forall i :: |r| <= i < |s| ==> IsSpace(s[i])
  {
    if s != [] && IsSpace(s[|s| - 1]) then TrimEnd(s[..|s| - 1]) else s
  }

  /** `s.trim()`. */
  function Trim(s: string): string {
    TrimEnd(TrimStart(s))
  }

  /** A name trims to nothing exactly when it is made of white space only. */
  lemma BlankIffAllSpace(s: string)
    ensures Trim(s) == "" <==> forall i :: 0 <= i < |s| ==> IsSpace(s[i])
  {
  }

  /** The result of a server action: `success` read for truthiness. */
  datatype ActionResult = ActionResult(success: Flag)

  /** `if (result && !result.success)`: the local-storage fallback. */
  predicate FallbackRuns(result: Option<ActionResult>) {
    result.Some? && !Truthy(result.value.success)
  }

  /** The fallback runs on a present result without a truthy `success`, a result without the
      field included ... */
  lemma FallbackOnMissingSuccess()
    ensures FallbackRuns(Some(ActionResult(Absent)))
    ensures !FallbackRuns(None) && !FallbackRuns(Some(ActionResult(Bool(true))))
  {
  }

  /** The panel state `handleAdd` reads and writes. */
  datatype AddState = AddState(employees: seq<Employee>, newName: string)

  /** `handleAdd`: a blank name returns before anything happens (the field is not even
      cleared); otherwise the action runs, the fallback employee `created` is appended when
      the fallback runs, and the field is cleared. */
  function HandleAdd(st: AddState, result: Option<ActionResult>, created: Employee): (r: AddState)
    ensures Trim(st.newName) == "" ==> r == st
    ensures Trim(st.newName) != "" ==> r.newName == ""
    ensures Trim(st.newName) != "" ==>
      r.employees == if FallbackRuns(result) then st.employees + [created] else st.employees
  {
    if Trim(st.newName) == "" then st
    else if FallbackRuns(result) then AddState(st.employees + [created], "")
    else AddState(st.employees, "")
  }
}
