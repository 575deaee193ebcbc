/** The order status state machine of src/domain/orderState.js: which status changes
    `isValidTransition` allows, for an order's own workflow (its `assumeChefRole` flag)
    and for the legacy call that passes a bare status. */
module OrderState {
  import opened Model
  import opened Seqs

  /** STATUS_SEQUENCE: the canonical forward order. CANCELLED is not part of it. */
  const StatusSequence: seq<Status> := [New, Confirmed, InPrep, Monitor, Oven, Ready, Completed]

  /** The position of a status in STATUS_SEQUENCE, or -1 when the sequence does not hold it. */
  function Position(s: Status): (r: int)
    ensures -1 <= r < |StatusSequence|
    ensures r >= 0 ==> StatusSequence[r] == s
  {
    match s
    case New => 0
    case Confirmed => 1
    case InPrep => 2
    case Monitor => 3
    case Oven => 4
    case Ready => 5
    case Completed => 6
    case Cancelled => -1
    case Other(_) => -1
  }

  /** Position is `STATUS_SEQUENCE.indexOf`. */
  lemma PositionIsIndexOf(s: Status)
    ensures Position(s) == IndexOf(StatusSequence, s)
  {
    PositionsInSequence();
    var p := Position(s);
    if p >= 0 {
      assert Distinct(StatusSequence);
      IndexOfDistinct(StatusSequence, p);
    } else {
      assert s !in StatusSequence;
    }
  }

  /** Each entry of the sequence sits at its own position. */
  lemma PositionsInSequence()
    ensures forall k :: 0 <= k < |StatusSequence| ==> Position(StatusSequence[k]) == k
  {
  }

  /** The first argument of `isValidTransition`: a bare status string or an order object. */
  datatype Subject = BareStatus(status: Status) | OfOrder(order: Order)

  /** The current status the validator reads. */
  function CurrentStatus(x: Subject): Status {
    match x
    case BareStatus(s) => s
    case OfOrder(o) => o.status
  }

  /** Whether the chef workflow applies: the order's flag, read for truthiness; never for a bare status. */
  predicate ChefRole(x: Subject) {
    match x
    case BareStatus(_) => false
    case OfOrder(o) => Truthy(o.assumeChefRole)
  }

  /** The validator's rules in the order the code applies them. */
  predicate Allowed(current: Status, next: Status, chef: bool) {
    if current == next then false
    else if next == Cancelled then current != Completed && current != Cancelled
    else if chef && current == New && next == Monitor then true
    else if chef && current == New && next == InPrep then false
    else if !chef && current == New && next == Monitor then false
    else if !chef && current == New && next == InPrep then true
    else
      var ci := Position(current);
      var ni := Position(next);
      if ci == -1 || ni == -1 then false else ni == ci + 1
  }

  /** `isValidTransition(orderOrStatus, nextStatus)`. */
  predicate IsValidTransition(x: Subject, next: Status) {
    Allowed(CurrentStatus(x), next, ChefRole(x))
  }

  /** An independent statement of the same state machine: the statuses each status may move to. */
  function Successors(current: Status, chef: bool): set<Status> {
    match current
    case New => if chef then {Confirmed, Monitor, Cancelled} else {Confirmed, InPrep, Cancelled}
    case Confirmed => {InPrep, Cancelled}
    case InPrep => {Monitor, Cancelled}
    case Monitor => {Oven, Cancelled}
    case Oven => {Ready, Cancelled}
    case Ready => {Completed, Cancelled}
    case Completed => {}
    case Cancelled => {}
    case Other(_) => {Cancelled}
  }

  /** The validator agrees with the table on every pair of statuses, in both workflows. */
  lemma TransitionTable(x: Subject, next: Status)
    ensures IsValidTransition(x, next) <==> next in Successors(CurrentStatus(x), ChefRole(x))
  {
  }

  /** Staying in the same status is never a transition. */
  lemma SelfTransitionInvalid(x: Subject)
    ensures !IsValidTransition(x, CurrentStatus(x))
  {
  }

  /** Cancelling is allowed exactly when the order is neither completed nor already cancelled,
      in either workflow and from unknown statuses too. */
  lemma CancelRule(x: Subject)
    ensures IsValidTransition(x, Cancelled) <==> CurrentStatus(x) != Completed && CurrentStatus(x) != Cancelled
  {
  }

  /** In the chef workflow a new order goes straight to MONITOR, never to IN_PREP,
      and may still be confirmed first. */
  lemma ChefWorkflowFromNew(o: Order)
    requires o.status == New && Truthy(o.assumeChefRole)
    ensures IsValidTransition(OfOrder(o), Monitor)
    ensures !IsValidTransition(OfOrder(o), InPrep)
    ensures IsValidTransition(OfOrder(o), Confirmed)
  {
  }

  /** In the ordinary workflow a new order goes to IN_PREP, never straight to MONITOR. */
  lemma StandardWorkflowFromNew(o: Order)
    requires o.status == New && !Truthy(o.assumeChefRole)
    ensures IsValidTransition(OfOrder(o), InPrep)
    ensures !IsValidTransition(OfOrder(o), Monitor)
  {
  }

  /** The legacy bare-status form behaves like an order whose flag is falsy. */
  lemma BareStatusIsStandardWorkflow(o: Order, next: Status)
    requires !Truthy(o.assumeChefRole)
    ensures IsValidTransition(BareStatus(o.status), next) == IsValidTransition(OfOrder(o), next)
  {
  }

  /** Outside the cancel rule and the two NEW branches, a move is valid exactly when it goes
      one step forward in STATUS_SEQUENCE. */
  lemma SequenceRule(x: Subject, next: Status)
    requires next != Cancelled
    requires !(CurrentStatus(x) == New && (next == InPrep || next == Monitor))
    ensures IsValidTransition(x, next) <==>
      exists i :: 0 <= i < |StatusSequence| - 1 &&
        StatusSequence[i] == CurrentStatus(x) && StatusSequence[i + 1] == next
  {
    PositionsInSequence();
    var cur := CurrentStatus(x);
    var ci := Position(cur);
    if IsValidTransition(x, next) {
      assert StatusSequence[ci] == cur && StatusSequence[ci + 1] == next;
    }
    if exists i :: 0 <= i < |StatusSequence| - 1 &&
        StatusSequence[i] == cur && StatusSequence[i + 1] == next {
      var i :| 0 <= i < |StatusSequence| - 1 && StatusSequence[i] == cur && StatusSequence[i + 1] == next;
      assert Position(StatusSequence[i]) == i && Position(StatusSequence[i + 1]) == i + 1;
    }
  }

  /** No skipping and no going back: from position i only position i + 1 is reachable through
      the sequence (the NEW branches are the only exception). */
  lemma NoSkipNoBackward(x: Subject, i: int, j: int)
    requires 0 <= i < |StatusSequence| && 0 <= j < |StatusSequence|
    requires CurrentStatus(x) == StatusSequence[i]
    requires j != i + 1
    requires !(i == 0 && (j == 2 || j == 3))
    ensures !IsValidTransition(x, StatusSequence[j])
  {
    assert Position(StatusSequence[i]) == i && Position(StatusSequence[j]) == j;
  }

  /** COMPLETED and CANCELLED are terminal. */
  lemma TerminalStatuses(x: Subject, next: Status)
    requires CurrentStatus(x) == Completed || CurrentStatus(x) == Cancelled
    ensures !IsValidTransition(x, next)
  {
    TransitionTable(x, next);
  }

  /** From a status the sequence does not know, only cancelling is allowed. */
  lemma UnknownOnlyCancels(x: Subject, next: Status)
    requires CurrentStatus(x).Other?
    ensures IsValidTransition(x, next) <==> next == Cancelled
  {
    TransitionTable(x, next);
  }

  /** The flag matters only for moves out of NEW. */
  lemma ChefFlagOnlyAffectsNew(o: Order, flag: Flag, next: Status)
    requires o.status != New
    ensures IsValidTransition(OfOrder(o), next) == IsValidTransition(OfOrder(o.(assumeChefRole := flag)), next)
  {
  }

  /** No valid move leads into a status the sequence does not know. */
  lemma NeverIntoUnknown(x: Subject, next: Status)
    requires IsValidTransition(x, next)
    ensures !next.Other?
  {
    TransitionTable(x, next);
  }

  /** IN_PREP to OVEN skips MONITOR and is rejected in both workflows, although the test
      'should set ovenEnteredAt when status changes to OVEN' expects the service to perform it. */
  lemma PrepToOvenRejected(x: Subject)
    requires CurrentStatus(x) == InPrep
    ensures !IsValidTransition(x, Oven)
  {
    TransitionTable(x, Oven);
  }
}
