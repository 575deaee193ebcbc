/** The side effect of an order entering the oven (src/domain/ovenHooks.js): at most one
    customer SMS notification, built from the order's customer snapshot and stored through an
    optional notification repository, with every repository failure swallowed. */
module OvenHooks {
  import opened Wrappers
  import opened Model

  /** A notification record. `customerName` is the snapshot name as it was (possibly missing). */
  datatype Notification = Notification(
    id: string,
    orderId: string,
    customerName: Option<string>,
    phone: string,
    kind: string,
    status: string,
    message: string,
    sentAt: int)

  const Greeting: string := "Hello "
  const Promise: string := ", your pizza will be ready in approximately 10 minutes."

  /** How a template literal renders an optional name: a missing name prints as "undefined". */
  function NameText(name: Option<string>): (r: string)
    ensures name.Some? ==> r == name.value
    ensures name.None? ==> r == "undefined"
  {
    match name
    case Some(n) => n
    case None => "undefined"
  }

  /** The message text for a rendered name. */
  function ReadyMessage(nameText: string): (r: string)
    ensures |r| == |Greeting| + |nameText| + |Promise|
    ensures r[..|Greeting|] == Greeting
    ensures r[|Greeting| + |nameText|..] == Promise
  {
    Greeting + nameText + Promise
  }

  /** Reads the name back out of a message. */
  function GreetedName(message: string): (r: Option<string>)
    ensures r.Some? ==> |message| == |Greeting| + |r.value| + |Promise|
  {
    if |message| >= |Greeting| + |Promise|
      && message[..|Greeting|] == Greeting
      && message[|message| - |Promise|..] == Promise
    then Some(message[|Greeting|..|message| - |Promise|])
    else None
  }

  /** The message determines the name it greets. */
  lemma {:induction false} GreetedNameOfMessage(nameText: string)
    ensures GreetedName(ReadyMessage(nameText)) == Some(nameText)
  {
    var m := ReadyMessage(nameText);
    assert m[|m| - |Promise|..] == Promise;
    assert m[|Greeting|..|m| - |Promise|] == nameText;
  }

  /** So different names give different messages. */
  lemma ReadyMessageInjective(a: string, b: string)
    requires ReadyMessage(a) == ReadyMessage(b)
    ensures a == b
  {
    GreetedNameOfMessage(a);
    GreetedNameOfMessage(b);
  }

  /** What the hook decides before it touches the repository. */
  datatype Decision = NotInOven | NoPhone | Send(notification: Notification)

  /** The guards and the notification built when both pass; `id` and `now` stand for the
      generated UUID and the clock. */
  function Decide(order: Order, id: string, now: int): (d: Decision)
    ensures d.NotInOven? <==> order.status != Oven
    ensures d.NoPhone? <==> order.status == Oven && !Filled(order.customer.phone)
    ensures d.Send? ==>
      var n := d.notification;
      n.id == id && n.orderId == order.id && n.customerName == order.customer.name
      && Some(n.phone) == order.customer.phone && n.phone != ""
      && n.kind == "SMS" && n.status == "SENT" && n.sentAt == now
      && GreetedName(n.message) == Some(NameText(order.customer.name))
  {
    if order.status != Oven then NotInOven
    else if !Filled(order.customer.phone) then NoPhone
    else
      var text := NameText(order.customer.name);
      GreetedNameOfMessage(text);
      Send(Notification(id, order.id, order.customer.name, order.customer.phone.value,
        "SMS", "SENT", ReadyMessage(text), now))
  }

  /** The notification repository the hook is handed: it may lack `create`, and its `create`
      may throw (`failing`). Every call is counted. */
  class NotificationRepository {
    const hasCreate: bool
    var failing: bool
    var stored: seq<Notification>
    var createCalls: nat

    constructor (hasCreate: bool, failing: bool)
      ensures this.hasCreate == hasCreate && this.failing == failing
      ensures stored == [] && createCalls == 0
    {
      this.hasCreate := hasCreate;
      this.failing := failing;
      stored := [];
      createCalls := 0;
    }

    /** `create(n)`: stores `n`, or throws (reported as `false`) and stores nothing. */
    method Create(n: Notification) returns (ok: bool)
      requires hasCreate
      modifies this
      ensures ok == !old(failing)
      ensures stored == if ok then old(stored) + [n] else old(stored)
      ensures createCalls == old(createCalls) + 1
      ensures failing == old(failing)
    {
      ok := !failing;
      if ok {
        stored := stored + [n];
      }
      createCalls := createCalls + 1;
    }
  }

  /** `handleOvenEntry(order, notificationRepo)`; a null `repo` is a missing repository. */
  method HandleOvenEntry(order: Order, repo: NotificationRepository?, id: string, now: int)
    returns (r: Option<Notification>)
    modifies repo
    ensures var d := Decide(order, id, now);
      if !d.Send? then
        r == None && (repo != null ==> unchanged(repo))
      else if repo == null || !repo.hasCreate then
        r == Some(d.notification) && (repo != null ==> unchanged(repo))
      else
        repo.createCalls == old(repo.createCalls) + 1 && repo.failing == old(repo.failing) &&
        if old(repo.failing) then
          r == None && repo.stored == old(repo.stored)
        else
          r == Some(d.notification) && repo.stored == old(repo.stored) + [d.notification]
  {
    var d := Decide(order, id, now);
    if !d.Send? {
      return None;
    }
    if repo != null && repo.hasCreate {
      var ok := repo.Create(d.notification);
      if !ok {
        return None;
      }
    }
    return Some(d.notification);
  }
}
