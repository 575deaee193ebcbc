# Order lifecycle of the pizza-shop app, in Dafny

This project models the order-lifecycle core of a small pizza-shop web app. Orders move through
the statuses NEW, CONFIRMED, IN_PREP, MONITOR, OVEN, READY and COMPLETED, or are CANCELLED.
Kitchen stations show and advance them. The model covers:

- the transition validator `isValidTransition`, with its chef workflow (`assumeChefRole`) and
  the legacy call that passes a bare status string;
- the oven-entry hook that sends one SMS notification;
- the in-memory order repository;
- the admin override endpoint;
- the client-side list logic of the stations:
  - the oven screen merges server and cached orders (last writer wins) and builds its queue;
  - the staff panel merges employees (local always wins) and does add, punch in/out and delete;
  - the order editor's workflow action table;
  - the label printer;
  - the monitor, expo and chef queues;
- the service facade's warning lookup and duty toggle;
- the admin dashboard's expand toggle, confirm guard and override request.

Modules follow the source files:

| module | source |
|---|---|
| `OrderState` | src/domain/orderState.js |
| `OvenHooks` | src/domain/ovenHooks.js |
| `MemoryOrderRepository` | src/infrastructure/repositories/MemoryOrderRepository.js |
| `AdminOverrideRoute` | src/app/api/admin/override/route.js |
| `OvenView` | src/components/Oven.js |
| `StaffAssignments` | src/components/StaffAssignmentsModal.js |
| `OrderEditModal` | src/components/OrderEditModal.js |
| `ReceiptPrinter` | src/utils/receiptPrinter.js |
| `MonitorDisplay` | src/components/MonitorDisplay.js |
| `ExpoDisplay` | src/components/ExpoDisplay.js |
| `ChefDisplay` | src/components/ChefDisplay.js |
| `Services` | src/lib/services.js |
| `AdminDashboard` | src/components/AdminDashboard.js |

Four support modules hold shared pieces:

- `Model` holds the records, the status type and JavaScript truthiness.
- `Seqs` holds `filter`, a stable sort by an integer key, `indexOf` and `[...new Set(xs)]`.
- `KeyedMap` models a JavaScript `Map` whose values carry their key, kept as a sequence in insertion order.
- `Wrappers` holds Option and Result.

Modelling decisions:

- **Status strings.** A status is a datatype with one constructor per known status plus
  `Other(name)` for any other string. `Wire` and `Parse` are the two directions, and they are
  proved inverse. The `ORDER_STATUS` values live in a file that is not part of this model. The
  editor compares `order.status` with the literals `'NEW'`, `'IN_PREP'` and so on, so each
  `ORDER_STATUS.X` is taken to be the string `"X"`. The monitor's literal `'PREP'` is therefore
  the unknown status `Other("PREP")`, not IN_PREP.
- **Truthiness.** A boolean-like field (`assumeChefRole`, `isOnDuty`, `isActive`, `success`) is
  a `Flag`: absent, a real boolean, or a non-boolean value with its truthiness. The validator
  reads the chef flag for truthiness. The chef station tests `=== true`.
- **Time and ids.** Dates, ISO timestamps and generated ids (`crypto.randomUUID`,
  `demo-${Date.now()}-…`) are integer and string parameters.
- **Name order.** `localeCompare` on customer names is an integer collation key, `rank`,
  supplied by the caller.
- **Repositories.** The override endpoint takes its order repository from the repository
  factory (src/lib/repositoryFactory.js:11), which builds a file-backed store. The route is
  therefore modelled over an abstract `OrderStore`. Its `updateStatus` resolves or throws, and
  the route sees nothing else of it.
- **The in-memory store.** The in-memory order repository is modelled on its own. Every
  instance of it shares the module-level `mockOrders`, so the store is one object. `findById`,
  `create` and `update` return copies (`{ ...order }`), which are values here. `getAll` copies
  only the array, and its elements are the stored objects themselves; see "## Left out".
- **Code over prose.** The validator rejects IN_PREP→OVEN, and the model follows the code. The
  service test 'should set ovenEnteredAt when status changes to OVEN'
  (src/domain/orderService.test.js:73-100) expects that move to succeed.
  `OrderState.PrepToOvenRejected` states the rejection. The order service itself is not part
  of this model.

## Model

| member | source | states |
|---|---|---|
| `Model.ParseWire` | src/domain/orderState.js:3-11 | Reading the stored status string gives the status back |
| `Model.WireParse` | src/domain/orderState.js:3-11 | Storing a read status gives the string back, so statuses and strings correspond one to one |
| `Model.StrictTrueIsStronger` | src/components/ChefDisplay.js:13 | `=== true` implies truthiness; a truthy non-boolean passes the validator's test and fails the chef station's |
| `Model.OrElse` | src/utils/receiptPrinter.js:20 | `t \|\| fallback`: the text when present and non-empty, else the fallback |
| `Model.SortName` | src/components/Oven.js:85-87 | The sort name is the customer name, or '' when missing |
| `Seqs.Filter` | src/components/ChefDisplay.js:11-17 | `filter` keeps exactly the elements satisfying the test, with their multiplicities |
| `Seqs.FilterConcat` | src/components/ExpoDisplay.js:24 | Filtering works piecewise over concatenation, so kept elements stay in order |
| `Seqs.SortBy` | src/components/ChefDisplay.js:18 | The sort result is ordered by the key and is a permutation of the input |
| `Seqs.Dedup` | src/components/MonitorDisplay.js:32 | `[...new Set(s)]` has the same members as `s`, no repeats, and keeps them in the order of their first occurrence in `s` |
| `Seqs.DedupPrefix` | src/components/MonitorDisplay.js:32 | De-duplicating `a + b` starts with de-duplicated `a` (first-occurrence order) |
| `KeyedMap.Put` | src/components/Oven.js:25 | `map.set(key(x), x)`: replaces the value in place when the key is present, else appends it; one more entry exactly when the key is new (`KeysPut`, `GetPut`) |
| `KeyedMap.PutAll` | src/components/Oven.js:25 | `map.set` for each value in turn; its keys and reads are stated by `KeysPutAll`, `GetPutAllOther` and `GetPutAllMember` |
| `KeyedMap.IndexOfKey` | src/infrastructure/repositories/MemoryOrderRepository.js:26 | `findIndex` by id: -1 exactly when the id is absent, else the first position holding it |
| `KeyedMap.GetPut` | src/components/Oven.js:25 | After `map.set`, the set key reads the new value and every other key reads its old value |
| `KeyedMap.KeysPutAll` | src/components/Oven.js:25 | Setting a list of values gives the old keys, then each new key once, in first-occurrence order |
| `KeyedMap.GetPutAllMember` | src/components/Oven.js:25 | With distinct ids, each key set by the list reads that list's value |
| `KeyedMap.GetPutAllUnlessMember` | src/components/Oven.js:28-44 | With distinct ids, each value of a conditional set is weighed once against what the map held |
| `OrderState.Position` | src/domain/orderState.js:3-11 | A status's index in STATUS_SEQUENCE, or -1 |
| `OrderState.Allowed` | src/domain/orderState.js:33-80 | The validator's branches in the code's order: self move, cancel, the NEW branches by workflow, then one step along the sequence; characterized by `TransitionTable` |
| `OrderState.IsValidTransition` | src/domain/orderState.js:29-81 | `isValidTransition(orderOrStatus, next)`: a bare status runs the standard workflow, an order its chef flag's truthiness |
| `OrderState.Successors` | src/domain/orderState.js:29-81 | An independent table of the allowed next statuses per status and workflow, equal to the validator by `TransitionTable` |
| `OrderState.PositionIsIndexOf` | src/domain/orderState.js:73-74 | That index is `STATUS_SEQUENCE.indexOf` |
| `OrderState.TransitionTable` | src/domain/orderState.js:29-81 | The validator accepts a move exactly when the successor table lists it, in both workflows and for bare statuses |
| `OrderState.SelfTransitionInvalid` | src/domain/orderState.js:33-35 | A move to the current status is always invalid |
| `OrderState.CancelRule` | src/domain/orderState.js:37-42 | Cancelling is valid iff the status is neither COMPLETED nor CANCELLED, unknown statuses included |
| `OrderState.ChefWorkflowFromNew` | src/domain/orderState.js:47-54 | Truthy chef flag: NEW→MONITOR valid, NEW→IN_PREP invalid, NEW→CONFIRMED still valid |
| `OrderState.StandardWorkflowFromNew` | src/domain/orderState.js:59-70 | Falsy chef flag: NEW→IN_PREP valid, NEW→MONITOR invalid |
| `OrderState.BareStatusIsStandardWorkflow` | src/domain/orderState.js:30-31 | A bare status string behaves like an order with a falsy chef flag |
| `OrderState.SequenceRule` | src/domain/orderState.js:72-80 | Outside cancel and the NEW branches, valid iff both are in the sequence and next is one step forward |
| `OrderState.NoSkipNoBackward` | src/domain/orderState.js:73-80 | From sequence position i, no position other than i+1 is reachable (for example NEW→READY is rejected) |
| `OrderState.TerminalStatuses` | src/domain/orderState.js:33-80 | COMPLETED and CANCELLED have no valid outgoing move |
| `OrderState.UnknownOnlyCancels` | src/domain/orderState.js:37-80 | From an unknown status only CANCELLED is valid |
| `OrderState.ChefFlagOnlyAffectsNew` | src/domain/orderState.js:44-80 | Changing the chef flag changes no decision for moves out of any status other than NEW |
| `OrderState.NeverIntoUnknown` | src/domain/orderState.js:37-80 | No valid move leads into an unknown status |
| `OrderState.PrepToOvenRejected` | src/domain/orderState.js:73-80 | IN_PREP→OVEN is rejected in both workflows, contrary to the service test's expectation |
| `OvenHooks.NameText` | src/domain/ovenHooks.js:36 | A missing name renders as "undefined" in the message |
| `OvenHooks.ReadyMessage` | src/domain/ovenHooks.js:36 | The message is the greeting, the name, then the ten-minute promise |
| `OvenHooks.GreetedName` | src/domain/ovenHooks.js:36 | Reading a name out of a message accounts for the message's whole length |
| `OvenHooks.GreetedNameOfMessage` | src/domain/ovenHooks.js:36 | The name read back from a message is the name it was built with |
| `OvenHooks.ReadyMessageInjective` | src/domain/ovenHooks.js:36 | Different names give different messages |
| `OvenHooks.Decide` | src/domain/ovenHooks.js:14-38 | Not OVEN, or OVEN without a truthy phone, sends nothing; otherwise the notification carries the order id, snapshot name and phone, SMS, SENT, the id, the time and the exact message |
| `OvenHooks.NotificationRepository.constructor` | src/domain/ovenHooks.js:45-46 | A repository with or without `create`, failing or not, with nothing stored |
| `OvenHooks.NotificationRepository.Create` | src/domain/ovenHooks.js:45-46 | `create` stores the notification unless it throws, and each call is counted |
| `OvenHooks.HandleOvenEntry` | src/domain/ovenHooks.js:13-57 | Guards fail: null, repository untouched. No `create`: the notification, nothing stored. `create` called exactly once: the notification on success, null with the error swallowed when it throws |
| `MemoryOrderRepository.Overlay` | src/infrastructure/repositories/MemoryOrderRepository.js:29-34 | Each given field replaces the stored one, missing fields keep it, and `updatedAt` is now |
| `MemoryOrderRepository.OverlayEmpty` | src/infrastructure/repositories/MemoryOrderRepository.js:30-34 | An update carrying only the id changes nothing but `updatedAt` |
| `MemoryOrderRepository.OverlayFull` | src/infrastructure/repositories/MemoryOrderRepository.js:30-34 | An update carrying every field replaces the record wholesale |
| `MemoryOrderRepository.OverlayIdempotent` | src/infrastructure/repositories/MemoryOrderRepository.js:30-34 | Applying the same update twice equals applying it once, up to the clock |
| `MemoryOrderRepository.Created` | src/infrastructure/repositories/MemoryOrderRepository.js:15-20 | A created record keeps a truthy id or takes the generated one, has source 'DEMO' and `updatedAt` now, and copies every other field |
| `MemoryOrderRepository.Stamped` | src/infrastructure/repositories/MemoryOrderRepository.js:43-52 | Sets status and `updatedAt`, sets `ovenEnteredAt` / `actualReadyAt` on a move to OVEN / READY, changes nothing else |
| `MemoryOrderRepository.RestampedOnEveryOvenEntry` | src/infrastructure/repositories/MemoryOrderRepository.js:47-49 | A second move into OVEN overwrites the first oven time |
| `MemoryOrderRepository.MemoryOrderRepository.constructor` | src/infrastructure/repositories/MemoryOrderRepository.js:2 | The store starts empty |
| `MemoryOrderRepository.MemoryOrderRepository.GetAll` | src/infrastructure/repositories/MemoryOrderRepository.js:5-7 | A permutation of the store, newest `createdAt` first, with the store unchanged |
| `MemoryOrderRepository.MemoryOrderRepository.FindById` | src/infrastructure/repositories/MemoryOrderRepository.js:9-12 | Null iff no order has the id; otherwise the first order with it, with the store unchanged |
| `MemoryOrderRepository.MemoryOrderRepository.Create` | src/infrastructure/repositories/MemoryOrderRepository.js:14-23 | Appends exactly the created record and returns it, with no duplicate check |
| `MemoryOrderRepository.MemoryOrderRepository.Update` | src/infrastructure/repositories/MemoryOrderRepository.js:25-37 | Absent id: error, store unchanged. Otherwise only the first entry with the id becomes the overlay |
| `MemoryOrderRepository.MemoryOrderRepository.UpdateStatus` | src/infrastructure/repositories/MemoryOrderRepository.js:39-56 | Absent id: error. Otherwise only that entry is restamped, with no legality check |
| `MemoryOrderRepository.DuplicateCreateShadowed` | src/infrastructure/repositories/MemoryOrderRepository.js:9-23 | Creating under a stored id leaves `findById` on the older record |
| `MemoryOrderRepository.UpdateKeepsOthers` | src/infrastructure/repositories/MemoryOrderRepository.js:29-36 | An update keeps the length, the id order and every other entry |
| `AdminOverrideRoute.AuditLog.constructor` | src/app/api/admin/override/route.js:22-27 | The log starts empty |
| `AdminOverrideRoute.AuditLog.Log` | src/app/api/admin/override/route.js:22-27 | `log` appends exactly one entry |
| `AdminOverrideRoute.EntryFor` | src/app/api/admin/override/route.js:22-27 | The entry is ADMIN_OVERRIDE, the order id, the reason or 'Manual override', and the time |
| `AdminOverrideRoute.OrderStore.constructor` | src/app/api/admin/override/route.js:20 | A store that throws on a given set of ids, with no calls yet |
| `AdminOverrideRoute.OrderStore.UpdateStatus` | src/app/api/admin/override/route.js:20 | Each call is recorded with its id and status; it resolves exactly when the store does not throw for that id |
| `AdminOverrideRoute.Refused` | src/app/api/admin/override/route.js:13 | `!orderId \|\| !status`: a missing or empty order id or status is refused |
| `AdminOverrideRoute.Post` | src/app/api/admin/override/route.js:6-30 | Missing field: 400, with neither repository touched. Otherwise exactly one unchecked `updateStatus` call with the parsed status. If it throws, the route throws and the log is untouched. Otherwise exactly one audit entry, then success |
| `AdminOverrideRoute.NewStatusAloneRefused` | src/app/api/admin/override/route.js:7-18 | A body with `newStatus` but no `status` is refused |
| `AdminOverrideRoute.OverrideIgnoresValidator` | src/app/api/admin/override/route.js:20 | The route asks for a move out of COMPLETED that the validator rejects, and the in-memory store carries it out |
| `OvenView.Merged` | src/components/Oven.js:19-49 | Server orders set into an empty map, then each local order set unless the present entry is at least as new; characterized by `MergedIds`, `NewerWins`, `LocalOnlyKept` and `ServerOnlyKept` |
| `OvenView.MergeOrders` | src/components/Oven.js:19-49 | The two loops compute the reconciled list `Merged(server, local)` |
| `OvenView.MergedIds` | src/components/Oven.js:22-47 | Each id from either side appears exactly once, server ids first in server order, then local-only ids |
| `OvenView.LocalOnlyKept` | src/components/Oven.js:31-33 | A local order whose id the server lacks is included unchanged |
| `OvenView.NewerWins` | src/components/Oven.js:35-43 | With the id on both sides, the local record wins iff strictly newer; ties keep the server's; the winner is taken whole |
| `OvenView.ServerOnlyKept` | src/components/Oven.js:25-44 | A server order whose id no local order has is included unchanged |
| `OvenView.MissingTimeIsZero` | src/components/Oven.js:36-37 | A missing `updatedAt` counts as time 0 |
| `OvenView.WithStatus` | src/components/Oven.js:60-62 | Only the status of orders with the given id changes; all others are untouched |
| `OvenView.WithStatusKeepsIds` | src/components/Oven.js:60-62 | The optimistic update keeps ids and their order, and the id reads back with the new status |
| `OvenView.GroupsInOrder` | src/components/Oven.js:81-88 | Two name-sorted groups, OVEN first, satisfy the queue's ordering rules |
| `OvenView.OvenQueue` | src/components/Oven.js:79-88 | Exactly the MONITOR and OVEN orders; all OVEN before all MONITOR; each group ordered by customer name |
| `StaffAssignments.Normalize` | src/components/StaffAssignmentsModal.js:44 | `isOnDuty` becomes its truthiness as a boolean; nothing else changes |
| `StaffAssignments.Normalized` | src/components/StaffAssignmentsModal.js:44 | Every record of a list is normalized, in place |
| `StaffAssignments.MergedStaff` | src/components/StaffAssignmentsModal.js:39-52 | Normalized server employees, then every normalized local employee set over its id; characterized by `MergedStaffIds`, `LocalAlwaysWins` and `ServerOnlyStaffKept` |
| `StaffAssignments.MergeEmployees` | src/components/StaffAssignmentsModal.js:39-52 | The two loops compute `MergedStaff(server, local)` |
| `StaffAssignments.MergedStaffIds` | src/components/StaffAssignmentsModal.js:40-52 | Each id from either side appears exactly once, server ids first |
| `StaffAssignments.LocalAlwaysWins` | src/components/StaffAssignmentsModal.js:47-50 | For a locally stored id the local record wins, with no timestamp comparison |
| `StaffAssignments.ServerOnlyStaffKept` | src/components/StaffAssignmentsModal.js:43-45 | An id only the server has keeps the server record |
| `StaffAssignments.MergedDutyIsBoolean` | src/components/StaffAssignmentsModal.js:44-49 | Every merged record has a boolean `isOnDuty` |
| `StaffAssignments.ToggleDuty` | src/components/StaffAssignmentsModal.js:218-231 | Only records with the target id flip `isOnDuty`; punch time is set to now going on duty and kept going off |
| `StaffAssignments.ToggleTwice` | src/components/StaffAssignmentsModal.js:218-231 | Punching in then out restores the duty flag and keeps the punch-in time |
| `StaffAssignments.WithoutEmployee` | src/components/StaffAssignmentsModal.js:254-256 | Delete removes exactly the records with that id and keeps the others with their multiplicities |
| `StaffAssignments.WithoutEmployeeKeepsOrder` | src/components/StaffAssignmentsModal.js:254-256 | Delete works piecewise, so the rest stay in order; an absent id changes nothing |
| `StaffAssignments.TrimStart` | src/components/StaffAssignmentsModal.js:63 | Leading white space is dropped, up to the first other character |
| `StaffAssignments.TrimEnd` | src/components/StaffAssignmentsModal.js:63 | Trailing white space is dropped, back to the last other character |
| `StaffAssignments.BlankIffAllSpace` | src/components/StaffAssignmentsModal.js:63 | A name trims to '' iff it is all white space |
| `StaffAssignments.FallbackOnMissingSuccess` | src/components/StaffAssignmentsModal.js:72 | The fallback runs for a present result without truthy `success`, never for no result or `success: true` |
| `StaffAssignments.HandleAdd` | src/components/StaffAssignmentsModal.js:61-81 | A blank name is a no-op. Otherwise the fallback employee is appended exactly when the fallback runs, and the field is cleared |
| `OrderEditModal.ParseView` | src/components/OrderEditModal.js:91-215 | The view string reads as REGISTER, KITCHEN or OVEN exactly when it is that string, else as another view |
| `OrderEditModal.WorkflowPanel` | src/components/OrderEditModal.js:91-215 | `renderWorkflowActions` per view and status; characterized row by row by `WorkflowTable` |
| `OrderEditModal.OnDutyNames` | src/components/OrderEditModal.js:142 | The assignee choices are exactly the names of on-duty employees |
| `OrderEditModal.WorkflowTable` | src/components/OrderEditModal.js:91-215 | The offers per view and status: REGISTER, KITCHEN (disabled without an assignment, on-duty assignees only), OVEN, else none |
| `OrderEditModal.OfferedVersusValidator` | src/components/OrderEditModal.js:91-215 | The offered moves the validator rejects: OVEN→OVEN, IN_PREP→READY, MONITOR→READY, OVEN→MONITOR, and NEW→IN_PREP for chef orders |
| `OrderEditModal.HandleWorkflowAction` | src/components/OrderEditModal.js:82-88 | No callback: no call. Otherwise one call with the order id, the status and the override assignee if truthy, else the assignment. Never prints |
| `ReceiptPrinter.Upper` | src/utils/receiptPrinter.js:47 | ASCII lower-case letters are upper-cased, other characters kept |
| `ReceiptPrinter.UpperIdempotent` | src/utils/receiptPrinter.js:47 | Upper-casing is idempotent and leaves no lower-case ASCII letter |
| `ReceiptPrinter.Decimal` | src/utils/receiptPrinter.js:20 | The number text is a non-empty digit string |
| `ReceiptPrinter.DecimalRoundTrip` | src/utils/receiptPrinter.js:20 | The digit string reads back as the number |
| `ReceiptPrinter.SplitJoin` | src/utils/receiptPrinter.js:49 | Splitting the joined text at newlines gives the lines back when no line contains a newline |
| `ReceiptPrinter.ItemLines` | src/utils/receiptPrinter.js:18-32 | An item's lines begin with its numbered header line |
| `ReceiptPrinter.LabelLines` | src/utils/receiptPrinter.js:14-50 | The label's lines top to bottom; their count and layout are stated by `LabelLayout` and `HeaderPosition` |
| `ReceiptPrinter.GenerateLabelText` | src/utils/receiptPrinter.js:14-50 | The pushes build exactly the label lines, joined by '\n' |
| `ReceiptPrinter.ItemsLinesLength` | src/utils/receiptPrinter.js:18-33 | One line per item, plus one per toppings line and one per note |
| `ReceiptPrinter.HeaderPosition` | src/utils/receiptPrinter.js:18-21 | Item k's header, numbered k+1, sits right after the lines of the items before it |
| `ReceiptPrinter.LabelLayout` | src/utils/receiptPrinter.js:15-49 | Item lines, exactly six empty lines, '~ Pizza Palace ~', then the upper-cased name line; total item lines + 8 |
| `MonitorDisplay.DisplayOrders` | src/components/MonitorDisplay.js:19-21 | Exactly the orders whose status is the literal 'PREP', oldest first |
| `MonitorDisplay.KnownStatusesNotShown` | src/components/MonitorDisplay.js:20 | No order in a known status is shown, IN_PREP included |
| `MonitorDisplay.NoValidMoveIntoPrepLiteral` | src/components/MonitorDisplay.js:20 | No validated move puts an order in the monitor's 'PREP' status |
| `MonitorDisplay.BaseIngredients` | src/components/MonitorDisplay.js:24-28 | The first same-named menu entry's ingredients that are not topping labels; none when the entry or its list is missing |
| `MonitorDisplay.SelectedToppings` | src/components/MonitorDisplay.js:30 | Missing toppings give [], a list its labels, a text its characters |
| `MonitorDisplay.FullIngredients` | src/components/MonitorDisplay.js:23-33 | Base and toppings together, each once, in the order of first occurrence in base followed by toppings, so the de-duplicated base comes first |
| `MonitorDisplay.ToppingsAllShown` | src/components/MonitorDisplay.js:30-32 | Every selected topping is in the result |
| `ExpoDisplay.ExpoQueue` | src/components/ExpoDisplay.js:31-37 | Exactly the OVEN orders, ordered by customer name |
| `ExpoDisplay.MarkReady` | src/components/ExpoDisplay.js:22-27 | Removes exactly the orders with that id, clears the selection, and requests READY for that id |
| `ExpoDisplay.MarkReadyKeepsOrder` | src/components/ExpoDisplay.js:24 | The removal works piecewise, so the other orders keep their order |
| `ExpoDisplay.Synced` | src/components/ExpoDisplay.js:11-13 | A new server list replaces the local one, with no merge |
| `ExpoDisplay.SyncForgetsLocalRemovals` | src/components/ExpoDisplay.js:11-13 | After a sync the queue is the server's, whatever was marked ready before |
| `ExpoDisplay.MarkedOrderReturns` | src/components/ExpoDisplay.js:11-27 | An order marked ready leaves the queue at once, and comes back with the next sync while the server still lists it as OVEN |
| `ChefDisplay.ChefVisible` | src/components/ChefDisplay.js:13-16 | `assumeChefRole === true` and the status is IN_PREP, OVEN or READY; used by `ChefQueue` and `TruthyFlagNotShown` |
| `ChefDisplay.ChefQueue` | src/components/ChefDisplay.js:10-18 | A filtered permutation: only strictly-true chef orders in IN_PREP, OVEN or READY, oldest first |
| `ChefDisplay.TruthyFlagNotShown` | src/components/ChefDisplay.js:13 | A truthy non-boolean flag runs the chef workflow yet is not shown |
| `Services.Matches` | src/lib/services.js:80-82 | An active (truthy) warning whose customer phone is exactly the phone; used by `FindActiveWarning` |
| `Services.FindActiveWarning` | src/lib/services.js:80-82 | None iff no active warning has the phone; otherwise the first that does |
| `Services.Facade.constructor` | src/lib/services.js:4-5 | Both handles start null |
| `Services.Facade.RegisterServerServices` | src/lib/services.js:7-10 | Sets both `orderService` and `repositories` |
| `Services.Facade.GetOrders` | src/lib/services.js:22-25 | Throws before registration; afterwards the order repository's list, newest first |
| `Services.Facade.GetWarnings` | src/lib/services.js:27-30 | Throws before registration; afterwards the stored warnings |
| `Services.Facade.GetEmployees` | src/lib/services.js:37-40 | Throws before registration; afterwards the stored employees |
| `Services.Facade.CheckCustomerWarning` | src/lib/services.js:75-95 | Throws before registration; a falsy phone gives no warning; else the first active match's reason and date, or no warning |
| `Services.Facade.ToggleEmployeeDuty` | src/lib/services.js:54-63 | Unknown id: false, no update. Otherwise the record with the new flag is written with one update call, and true |
| `Services.ToggledReadsBack` | src/lib/services.js:54-63 | After the toggle, that id reads back with the new flag and the others are unchanged |
| `AdminDashboard.ToggleExpand` | src/components/AdminDashboard.js:30-38 | Flips membership of exactly the given id |
| `AdminDashboard.ToggleExpandTwice` | src/components/AdminDashboard.js:30-38 | Toggling the same id twice restores the set |
| `AdminDashboard.ConfirmDisabled` | src/components/AdminDashboard.js:123-127 | The button's `disabled`: no reason, OTHER without a comment, or this order loading |
| `AdminDashboard.ConfirmEnabledIff` | src/components/AdminDashboard.js:123-134 | A click sends a request iff there is a reason, a comment when the reason is OTHER, and this order is not loading; a sent request always carries a reason |
| `AdminDashboard.NoDoubleSubmit` | src/components/AdminDashboard.js:49-63 | While the request is in flight a second click sends nothing, and after the reset no click sends anything |
| `AdminDashboard.OverrideBody` | src/components/AdminDashboard.js:53-58 | The posted body carries the order id, the status in `newStatus` (no `status`), the reason and the comment |
| `AdminDashboard.Sending` | src/components/AdminDashboard.js:49 | While the request is in flight the confirm button for that order is disabled |
| `AdminDashboard.AfterOverride` | src/components/AdminDashboard.js:60-63 | Loading, the selected order, reason and comment are all reset, so confirm is disabled |
| `AdminDashboard.Confirm` | src/components/AdminDashboard.js:123-134 | A click sends nothing without a selected order or while the button is disabled; otherwise it requests CANCELLED for the selected order, then resets |
| `AdminDashboard.DashboardOverrideRefused` | src/components/AdminDashboard.js:53-58 | Every dashboard override body is refused by the route's guard |
| `AdminDashboard.CorrectedOverrideBody` | src/components/AdminDashboard.js:53-58 | The corrected body carries the status in `status` |
| `AdminDashboard.CorrectedOverrideCancels` | src/components/AdminDashboard.js:53-58 | The corrected body passes the guard, requests CANCELLED, and logs the dashboard's reason |

## Left out

- The order service (src/domain/orderService.js) is not part of this model. Its `createOrder`, `updateStatus` and `updateOrderDetails` are therefore not modelled.
- Money is floating point, so prices, totals and change due are not modelled.
- Persistence plumbing is not modelled: the Prisma, KV and file repositories, the repository factory and server service wiring, and the demo guard.
- The `/api/admin/orders` route and the database scripts are not modelled.
- The server actions in src/app/actions.js are not modelled. Their stubs return `{ok:true}` without `success`, so the staff panel's fallback always runs (see `StaffAssignments.FallbackOnMissingSuccess`).
- Rendering is not modelled: JSX, pages, polling (`setInterval`, `router.refresh`), the 0 ms `setTimeout` before the merged list is set, and React state plumbing.
- Browser storage (`demoStorage`) is not modelled: its reads are parameters, and its writes after the optimistic updates are not modelled.
- Logging (`console.*`) is not modelled.
- Calls the views make to the server (`updateStatusAction`, `addEmployeeAction`, `toggleEmployeeDutyAction`, `deleteEmployeeAction`, the dashboard's `fetch`) are returned as call records or taken as results; their responses are not modelled.
- A failing `fetch` in the dashboard is not modelled. It has no `try`, so a rejected request would skip the reset.
- The services `addEmployee`, `deleteEmployee`, `addWarning` and `getActions` are not modelled. Each only forwards to a repository that is not part of this model. Beyond the first three accessors, the "throws before registration" rule is not repeated for them.
- The employee repository behind `toggleEmployeeDuty` is an abstract store: `findById` is the first record with the id, and `update` replaces it.
- The order editor's priority toggle, item editing and pricing, and the staff panel's global enable setting are not modelled.
- A missing `customerSnapshot` is not modelled: every order has one, with optional name and phone. For the oven hook a missing snapshot acts like one with neither field.
- `trim()` is modelled for ASCII white space and NBSP only. `toUpperCase()` is modelled for ASCII letters only.
- `AdminOverrideRoute.Post`: the file, KV and Prisma order stores the repository factory supplies are not part of this model. The route is proved over the abstract `OrderStore`, which says only which ids it throws on. What the in-memory store's write does is stated by `MemoryOrderRepository.MemoryOrderRepository.UpdateStatus`.
- `Services.Facade.GetOrders`: the registered order store is the in-memory one, standing in for the file, KV or Prisma store the server services register. Its "newest first" comes from that store's `getAll`.
- `getAll` returns the stored order objects themselves, so a caller that changes one changes the store, and a later `updateStatus` changes what an earlier `getAll` returned. The model returns values, so this aliasing is not modelled.
- `MonitorDisplay.DisplayOrders`: it states order by `createdAt`, not the order of equal timestamps that the stable sort keeps.
- `ChefDisplay.ChefQueue`: it states order by `createdAt`, not the order of equal timestamps that the stable sort keeps.
- `ExpoDisplay.ExpoQueue`: it states order by customer name, not the order of equal names that the stable sort keeps.
- `MemoryOrderRepository.MemoryOrderRepository.GetAll`: it states order by `createdAt` and permutation, not the order of equal timestamps. A stable sort keeps those in store order.
- `OvenView.OvenQueue`: it is defined as the name-sorted OVEN group followed by the name-sorted MONITOR group. That equals a stable sort with the source's comparator, but the equality itself is not proved.
- `OvenView.LocalOnlyKept`: assumes ids are distinct within the server list and within the local list. With repeated ids, the later value of the same list takes part.
- `OvenView.NewerWins`: assumes ids are distinct within each list, as above.
- `OvenView.ServerOnlyKept`: assumes ids are distinct within the server list.
- `StaffAssignments.LocalAlwaysWins`: assumes ids are distinct within the local list.
- `StaffAssignments.ServerOnlyStaffKept`: assumes ids are distinct within the server list.

## Findings

| source | as written | input that shows it | evidently intended | confidence | as-written member | corrected member |
|---|---|---|---|---|---|---|
| src/components/AdminDashboard.js:53-58 | The dashboard posts the requested status as `newStatus`, but the route reads only `status` (src/app/api/admin/override/route.js:7,13-18) | Any confirmed delete, such as order id "o1" with reason "CUSTOMER" | The route should receive the status CANCELLED and cancel the order | not executed | `AdminDashboard.DashboardOverrideRefused` | `AdminDashboard.CorrectedOverrideCancels` |
