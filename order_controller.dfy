/** The order handlers of backend/controllers/orderController.js over an
    in-memory order table: create (non-empty items only), read one (owner or
    admin), the caller's own orders, all orders, and the two one-way
    transitions to paid and to delivered. */
module OrderController {
  import opened Http
  import opened Seqs
  import Text
  import opened OrderModel

  const NoOrderItems := "No order items"
  const OrderNotFound := "Order not found"
  const NotAuthorized := "Not authorized to view this order"
  /** The exception `order.user._id` throws when the owner no longer exists. */
  const OwnerMissing := "Cannot read properties of null (reading '_id')"

  /** A user record as `populate('user', 'name email')` attaches it. */
  datatype Owner = Owner(id: UserId, name: string, email: string)

  /** The payment details a pay request carries. */
  datatype PaymentBody = PaymentBody(id: Option<string>, status: Option<string>, payerEmail: Option<string>)

  /** The order table and the counter standing in for generated ids. */
  datatype Table = Table(orders: seq<Order>, nextId: nat)

  function Id(o: Order): nat { o.id }
  function CreatedAt(o: Order): real { o.createdAt as real }

  /** The table invariant: distinct ids below the counter, every order
      satisfies the schema, and every order has at least one item. */
  ghost predicate TableValid(t: Table) {
    && DistinctKeys(t.orders, Id)
    && (forall i :: 0 <= i < |t.orders| ==> t.orders[i].id < t.nextId)
    && (forall i :: 0 <= i < |t.orders| ==> OrderModel.Valid(t.orders[i]) && t.orders[i].orderItems != [])
  }

  // ---------------------------------------------------------------------------
  // Creation

  predicate HasItems(body: OrderFields) {
    body.orderItems.Some? && body.orderItems.value != []
  }

  /** `addOrderItems`: a missing or empty item list is refused before the
      schema is consulted; otherwise the body is stored as given, owned by
      the caller, with no recomputation of any price. */
  function CreateOrder(id: nat, caller: Caller, body: OrderFields, now: int): (r: Result<Order>)
    ensures !HasItems(body) ==> r == Err(BadRequest(NoOrderItems))
    ensures r.Ok? <==> HasItems(body) && Complete(body)
    ensures HasItems(body) ==> r == NewOrder(id, caller.id, body, now)
    ensures HasItems(body) && !Complete(body) ==> r == Err(Invalid(ValidationFailed))
    ensures r.Ok? ==> (r.value.user == caller.id && r.value.orderItems != []
                       && OrderModel.Valid(r.value))
  {
    if !HasItems(body) then Err(BadRequest(NoOrderItems))
    else NewOrder(id, caller.id, body, now)
  }

  function Add(t: Table, caller: Caller, body: OrderFields, now: int): (Table, Result<Order>) {
    var r := CreateOrder(t.nextId, caller, body, now);
    if r.Ok? then (Table(t.orders + [r.value], t.nextId + 1), r) else (t, r)
  }

  // ---------------------------------------------------------------------------
  // Reading

  /** Who may read an order: its owner, or an administrator. */
  predicate CanView(caller: Caller, o: Order): (b: bool)
    ensures caller.isAdmin ==> b
    ensures !caller.isAdmin ==> (b <==> o.user == caller.id)
  {
    o.user == caller.id || caller.isAdmin
  }

  /** `i` is the position `findById` lands on: the first order with `id`. */
  ghost predicate FirstWithId(orders: seq<Order>, id: nat, i: int) {
    0 <= i < |orders| && orders[i].id == id && forall j :: 0 <= j < i ==> orders[j].id != id
  }

  /** `getOrderById`: 404 when absent; a server error when the owner record
      is gone (populate yields null); 403 unless owner or admin; otherwise
      the order found, with its owner's record attached. */
  function OrderById(orders: seq<Order>, users: map<UserId, Owner>, caller: Caller, id: nat)
    : (r: Result<(Order, Owner)>)
    ensures r == Err(NotFound(OrderNotFound)) <==> forall i :: 0 <= i < |orders| ==> orders[i].id != id
    ensures r == Err(ServerError(OwnerMissing)) <==>
              exists i :: FirstWithId(orders, id, i) && orders[i].user !in users
    ensures r == Err(Forbidden(NotAuthorized)) <==>
              exists i :: FirstWithId(orders, id, i) && orders[i].user in users && !CanView(caller, orders[i])
    ensures r.Ok? <==>
              exists i :: FirstWithId(orders, id, i) && orders[i].user in users && CanView(caller, orders[i])
    ensures r.Ok? ==> forall i :: FirstWithId(orders, id, i) ==> r.value == (orders[i], users[orders[i].user])
    ensures r.Ok? || r == Err(NotFound(OrderNotFound)) || r == Err(Forbidden(NotAuthorized))
            || r == Err(ServerError(OwnerMissing))
  {
    match IndexOf(orders, Id, id)
    case None => Err(NotFound(OrderNotFound))
    case Some(i) =>
      assert FirstWithId(orders, id, i);
      assert forall k :: FirstWithId(orders, id, k) ==> k == i;
      var o := orders[i];
      if o.user !in users then Err(ServerError(OwnerMissing))
      else if !CanView(caller, o) then Err(Forbidden(NotAuthorized))
      else Ok((o, users[o.user]))
  }

  /** `getMyOrders`: exactly the caller's orders, newest first. */
  function MyOrders(orders: seq<Order>, user: UserId): (r: seq<Order>)
    ensures forall o :: o in r <==> o in orders && o.user == user
    ensures forall o :: multiset(r)[o] == if o.user == user then multiset(orders)[o] else 0
    ensures NonIncreasing(r, CreatedAt)
  {
    var mine := Filter(orders, (o: Order) => o.user == user);
    var r := SortDesc(mine, CreatedAt);
    assert forall o :: o in r <==> o in orders && o.user == user by {
      forall o ensures o in r <==> o in orders && o.user == user {
        assert o in r <==> o in multiset(r);
        assert o in mine <==> o in multiset(mine);
        assert o in orders <==> o in multiset(orders);
      }
    }
    r
  }

  /** `getOrders`: every order with its owner's name attached, or nothing
      attached when the owner record is gone. */
  function AllOrders(orders: seq<Order>, users: map<UserId, Owner>): (r: seq<(Order, Option<string>)>)
    ensures |r| == |orders|
    ensures forall i :: 0 <= i < |r| ==> r[i].0 == orders[i]
    ensures forall i :: 0 <= i < |r| ==> (r[i].1.Some? <==> orders[i].user in users)
    ensures forall i :: 0 <= i < |r| ==> r[i].1.Some? ==> r[i].1.value == users[orders[i].user].name
  {
    if orders == [] then []
    else
      var o := orders[0];
      [(o, if o.user in users then Some(users[o.user].name) else None)] + AllOrders(orders[1..], users)
  }

  // ---------------------------------------------------------------------------
  // The two transitions

  /** `updateOrderToPaid` on a found order: the flag, the payment time and a
      fresh payment record whose update time is the same instant rendered
      as a decimal string; then `save()`. */
  function MarkPaid(o: Order, body: PaymentBody, now: nat): (p: Order)
    ensures p.isPaid && p.paidAt == Some(now) && p.paymentResult.updateTime == Some(Text.Decimal(now))
    ensures p.id == o.id && p.user == o.user && p.orderItems == o.orderItems
    ensures p.isDelivered == o.isDelivered && p.deliveredAt == o.deliveredAt
  {
    Saved(o, o.(isPaid := true, paidAt := Some(now),
                paymentResult := PaymentResult(body.id, body.status, Some(Text.Decimal(now)), body.payerEmail)),
          now)
  }

  /** `updateOrderToDelivered` on a found order: only the flag and the
      delivery time; being paid is not required. */
  function MarkDelivered(o: Order, now: nat): (d: Order)
    ensures d.isDelivered && d.deliveredAt == Some(now)
    ensures d.id == o.id && d.user == o.user && d.orderItems == o.orderItems
    ensures d.isPaid == o.isPaid && d.paidAt == o.paidAt && d.paymentResult == o.paymentResult
  {
    Saved(o, o.(isDelivered := true, deliveredAt := Some(now)), now)
  }

  /** Paying sets the three payment paths, keeps everything but the update
      stamp otherwise, and leaves the delivery state as it was. */
  lemma PayChangesOnlyPayment(o: Order, body: PaymentBody, now: nat)
    ensures var p := MarkPaid(o, body, now);
      && p.isPaid && p.paidAt == Some(now)
      && p.paymentResult == PaymentResult(body.id, body.status, Some(Text.Decimal(now)), body.payerEmail)
      && p.(isPaid := o.isPaid, paidAt := o.paidAt, paymentResult := o.paymentResult,
            updatedAt := o.updatedAt) == o
  {
  }

  /** Delivering sets the two delivery paths and nothing else but the stamp. */
  lemma DeliverChangesOnlyDelivery(o: Order, now: nat)
    ensures var d := MarkDelivered(o, now);
      && d.isDelivered && d.deliveredAt == Some(now)
      && d.(isDelivered := o.isDelivered, deliveredAt := o.deliveredAt, updatedAt := o.updatedAt) == o
  {
  }

  /** An unpaid order can be delivered and stays unpaid. */
  lemma DeliverWithoutPay(o: Order, now: nat)
    requires !o.isPaid
    ensures MarkDelivered(o, now).isDelivered && !MarkDelivered(o, now).isPaid
  {
  }

  /** Paying an already paid order overwrites the payment: the second
      payment is all that remains, apart from the update stamp. */
  lemma RepeatPayOverwrites(o: Order, first: PaymentBody, t1: nat, second: PaymentBody, t2: nat)
    ensures MarkPaid(MarkPaid(o, first, t1), second, t2).(updatedAt := o.updatedAt)
            == MarkPaid(o, second, t2).(updatedAt := o.updatedAt)
  {
  }

  /** Either transition keeps the order valid: each flag stays paired with
      its time. */
  lemma TransitionsKeepValid(o: Order, body: PaymentBody, now: nat)
    requires OrderModel.Valid(o)
    ensures OrderModel.Valid(MarkPaid(o, body, now))
    ensures OrderModel.Valid(MarkDelivered(o, now))
  {
  }

  /** `updateOrderToPaid`: 404 and no change when no order has the id;
      otherwise the first order with it is marked paid in place. */
  function Pay(t: Table, id: nat, body: PaymentBody, now: nat): (res: (Table, Result<Order>))
    ensures res.1 == Err(NotFound(OrderNotFound)) <==> forall j :: 0 <= j < |t.orders| ==> t.orders[j].id != id
    ensures res.1.Err? ==> res.0 == t && res.1 == Err(NotFound(OrderNotFound))
    ensures res.1.Ok? ==> exists i :: FirstWithId(t.orders, id, i) && res.1.value == MarkPaid(t.orders[i], body, now)
                                      && res.0 == t.(orders := t.orders[i := res.1.value])
  {
    match IndexOf(t.orders, Id, id)
    case None => (t, Err(NotFound(OrderNotFound)))
    case Some(i) =>
      var o := MarkPaid(t.orders[i], body, now);
      (t.(orders := t.orders[i := o]), Ok(o))
  }

  /** `updateOrderToDelivered`: 404 and no change when no order has the id;
      otherwise the first order with it is marked delivered in place. */
  function Deliver(t: Table, id: nat, now: nat): (res: (Table, Result<Order>))
    ensures res.1 == Err(NotFound(OrderNotFound)) <==> forall j :: 0 <= j < |t.orders| ==> t.orders[j].id != id
    ensures res.1.Err? ==> res.0 == t && res.1 == Err(NotFound(OrderNotFound))
    ensures res.1.Ok? ==> exists i :: FirstWithId(t.orders, id, i) && res.1.value == MarkDelivered(t.orders[i], now)
                                      && res.0 == t.(orders := t.orders[i := res.1.value])
  {
    match IndexOf(t.orders, Id, id)
    case None => (t, Err(NotFound(OrderNotFound)))
    case Some(i) =>
      var o := MarkDelivered(t.orders[i], now);
      (t.(orders := t.orders[i := o]), Ok(o))
  }

  // ---------------------------------------------------------------------------
  // Every sequence of requests

  /** The requests that change the order table. */
  datatype Request =
    | AddRequest(caller: Caller, body: OrderFields, now: nat)
    | PayRequest(id: nat, payment: PaymentBody, now: nat)
    | DeliverRequest(id: nat, now: nat)

  function Step(t: Table, req: Request): Table {
    match req
    case AddRequest(caller, body, now) => Add(t, caller, body, now).0
    case PayRequest(id, payment, now) => Pay(t, id, payment, now).0
    case DeliverRequest(id, now) => Deliver(t, id, now).0
  }

  function Run(t: Table, reqs: seq<Request>): Table
    decreases |reqs|
  {
    if reqs == [] then t else Run(Step(t, reqs[0]), reqs[1..])
  }

  /** `t` grows into `u`: no order disappears or changes identity, and
      neither flag of any order goes from true back to false. */
  predicate Grows(t: Table, u: Table) {
    && |t.orders| <= |u.orders|
    && forall i :: 0 <= i < |t.orders| ==>
         && u.orders[i].id == t.orders[i].id
         && u.orders[i].user == t.orders[i].user
         && (t.orders[i].isPaid ==> u.orders[i].isPaid)
         && (t.orders[i].isDelivered ==> u.orders[i].isDelivered)
  }

  lemma StepGrows(t: Table, req: Request)
    ensures Grows(t, Step(t, req))
  {
  }

  /** No request the controller serves, in any number and order, sets a
      paid or delivered order back to unpaid or undelivered. */
  lemma {:induction false} FlagsNeverReset(t: Table, reqs: seq<Request>)
    ensures Grows(t, Run(t, reqs))
    decreases |reqs|
  {
    if reqs != [] {
      var u := Step(t, reqs[0]);
      StepGrows(t, reqs[0]);
      FlagsNeverReset(u, reqs[1..]);
    }
  }

  /** Every request keeps the table invariant. */
  lemma StepKeepsValid(t: Table, req: Request)
    requires TableValid(t)
    ensures TableValid(Step(t, req))
  {
    match req {
      case AddRequest(caller, body, now) =>
      case PayRequest(id, payment, now) => PayKeepsValid(t, id, payment, now);
      case DeliverRequest(id, now) => DeliverKeepsValid(t, id, now);
    }
  }

  lemma PayKeepsValid(t: Table, id: nat, payment: PaymentBody, now: nat)
    requires TableValid(t)
    ensures TableValid(Pay(t, id, payment, now).0)
  {
    match IndexOf(t.orders, Id, id) {
      case None =>
      case Some(i) =>
        TransitionsKeepValid(t.orders[i], payment, now);
        var u := t.orders[i := MarkPaid(t.orders[i], payment, now)];
        assert forall k :: 0 <= k < |u| ==> u[k].id == t.orders[k].id;
        assert Pay(t, id, payment, now).0 == Table(u, t.nextId);
    }
  }

  lemma DeliverKeepsValid(t: Table, id: nat, now: nat)
    requires TableValid(t)
    ensures TableValid(Deliver(t, id, now).0)
  {
    match IndexOf(t.orders, Id, id) {
      case None =>
      case Some(i) =>
        TransitionsKeepValid(t.orders[i], PaymentBody(None, None, None), now);
        var u := t.orders[i := MarkDelivered(t.orders[i], now)];
        assert forall k :: 0 <= k < |u| ==> u[k].id == t.orders[k].id;
        assert Deliver(t, id, now).0 == Table(u, t.nextId);
    }
  }

  // ---------------------------------------------------------------------------
  // The handlers over a mutable table

  class OrderStore {
    var orders: seq<Order>
    var nextId: nat

    ghost predicate Valid()
      reads this
    {
      TableValid(Table(orders, nextId))
    }

    constructor ()
      ensures Valid() && orders == []
    {
      orders := [];
      nextId := 0;
    }

    /** POST /: creates the order, or stores nothing. */
    method AddOrderItems(caller: Caller, body: OrderFields, now: nat) returns (r: Result<Order>)
      requires Valid()
      modifies this
      ensures Valid()
      ensures r == CreateOrder(old(nextId), caller, body, now)
      ensures Table(orders, nextId) == Step(old(Table(orders, nextId)), AddRequest(caller, body, now))
    {
      StepKeepsValid(Table(orders, nextId), AddRequest(caller, body, now));
      if body.orderItems.None? || |body.orderItems.value| == 0 {
        r := Err(BadRequest(NoOrderItems));
        return;
      }
      r := NewOrder(nextId, caller.id, body, now);
      if r.Ok? {
        orders := orders + [r.value];
        nextId := nextId + 1;
      }
    }

    /** GET /:id */
    method GetOrderById(users: map<UserId, Owner>, caller: Caller, id: nat) returns (r: Result<(Order, Owner)>)
      ensures r == OrderById(orders, users, caller, id)
    {
      r := OrderById(orders, users, caller, id);
    }

    /** GET /myorders */
    method GetMyOrders(caller: Caller) returns (r: seq<Order>)
      ensures r == MyOrders(orders, caller.id)
    {
      r := MyOrders(orders, caller.id);
    }

    /** GET / */
    method GetOrders(users: map<UserId, Owner>) returns (r: seq<(Order, Option<string>)>)
      ensures r == AllOrders(orders, users)
    {
      r := AllOrders(orders, users);
    }

    /** PUT /:id/pay: sets the payment state in place, or 404 and no change. */
    method UpdateOrderToPaid(id: nat, body: PaymentBody, now: nat) returns (r: Result<Order>)
      requires Valid()
      modifies this
      ensures Valid()
      ensures r.Err? <==> forall i :: 0 <= i < |old(orders)| ==> old(orders)[i].id != id
      ensures r.Err? ==> r.failure == NotFound(OrderNotFound)
      ensures Table(orders, nextId) == Step(old(Table(orders, nextId)), PayRequest(id, body, now))
      ensures r == Pay(old(Table(orders, nextId)), id, body, now).1
    {
      StepKeepsValid(Table(orders, nextId), PayRequest(id, body, now));
      match IndexOf(orders, Id, id)
      case None =>
        r := Err(NotFound(OrderNotFound));
      case Some(i) =>
        var before := orders[i];
        var o := before;
        o := o.(isPaid := true);
        o := o.(paidAt := Some(now));
        o := o.(paymentResult := PaymentResult(body.id, body.status, Some(Text.Decimal(now)), body.payerEmail));
        if o != before {
          o := o.(updatedAt := now);
        }
        orders := orders[i := o];
        r := Ok(o);
    }

    /** PUT /:id/deliver: sets the delivery state in place, or 404 and no
        change. */
    method UpdateOrderToDelivered(id: nat, now: nat) returns (r: Result<Order>)
      requires Valid()
      modifies this
      ensures Valid()
      ensures r.Err? <==> forall i :: 0 <= i < |old(orders)| ==> old(orders)[i].id != id
      ensures r.Err? ==> r.failure == NotFound(OrderNotFound)
      ensures Table(orders, nextId) == Step(old(Table(orders, nextId)), DeliverRequest(id, now))
      ensures r == Deliver(old(Table(orders, nextId)), id, now).1
    {
      StepKeepsValid(Table(orders, nextId), DeliverRequest(id, now));
      match IndexOf(orders, Id, id)
      case None =>
        r := Err(NotFound(OrderNotFound));
      case Some(i) =>
        var before := orders[i];
        var o := before;
        o := o.(isDelivered := true);
        o := o.(deliveredAt := Some(now));
        if o != before {
          o := o.(updatedAt := now);
        }
        orders := orders[i := o];
        r := Ok(o);
    }
  }
}
