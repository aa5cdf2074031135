/** The order route table of routes/orderRoutes.js, in registration order.
    `POST /` is registered twice; `/config/paypal` comes after `/:id`. */
module OrderRoutes {
  import opened Http
  import opened Routing

  datatype Handler =
    | GetMyOrders | AddOrderItems | GetOrderById | GetOrders
    | GetPayPalClientId | UpdateOrderToDelivered | UpdateOrderToPaid

  const Table: seq<Route<Handler>> := [
    Route(Get, [Lit("myorders")], [Protect], GetMyOrders),
    Route(Post, [], [Protect], AddOrderItems),
    Route(Get, [Param("id")], [Protect], GetOrderById),
    Route(Post, [], [Protect], AddOrderItems),
    Route(Get, [], [Protect, Admin], GetOrders),
    Route(Get, [Lit("config"), Lit("paypal")], [Protect], GetPayPalClientId),
    Route(Put, [Param("id"), Lit("deliver")], [Protect, Admin], UpdateOrderToDelivered),
    Route(Put, [Param("id"), Lit("pay")], [Protect], UpdateOrderToPaid)
  ]

  /** The outcome of a lone `protect` in front of `h`. */
  function SignedIn(caller: Option<Caller>, h: Handler): Outcome<Handler> {
    if caller.None? then Denied(Unauthenticated) else Handled(h)
  }

  /** The outcome of a `protect, admin` chain in front of `h`. */
  function AdminOnly(caller: Option<Caller>, h: Handler): Outcome<Handler> {
    if caller.None? then Denied(Unauthenticated)
    else if !caller.value.isAdmin then Denied(NotAdmin)
    else Handled(h)
  }

  lemma AdminAlwaysAfterProtect()
    ensures forall i :: 0 <= i < |Table| ==> AdminAfterProtect(Table[i].guards)
  {
    assert [Protect, Admin][1] == Admin && [Protect, Admin][0] == Protect;
  }

  /** `/myorders` is registered before `/:id`, so it lists the caller's
      own orders. */
  lemma MyOrdersIsNotAnId(caller: Option<Caller>)
    ensures Handle(Table, Get, ["myorders"], caller) == SignedIn(caller, GetMyOrders)
  {
    DispatchAt(Table, Get, ["myorders"], 0);
  }

  /** Any other single piece is read as an order id. */
  lemma GetByIdNeedsProtect(id: string, caller: Option<Caller>)
    requires id != "" && id != "myorders"
    ensures Handle(Table, Get, [id], caller) == SignedIn(caller, GetOrderById)
  {
    assert !SegmentMatches(Table[0].pattern[0], [id][0]);
    DispatchAt(Table, Get, [id], 2);
  }

  /** `POST /` is taken by its first registration; the second never
      takes a request. */
  lemma CreateTakenByFirstRegistration(m: Method, path: Path, caller: Option<Caller>)
    ensures Handle(Table, Post, [], caller) == SignedIn(caller, AddOrderItems)
    ensures Dispatch(Table, m, path) != Some(3)
  {
    DispatchAt(Table, Post, [], 1);
    if Matches(Table[3], m, path) {
      assert Matches(Table[1], m, path);
    }
  }

  /** Listing every order needs an administrator. */
  lemma ListNeedsAdmin(caller: Option<Caller>)
    ensures Handle(Table, Get, [], caller) == AdminOnly(caller, GetOrders)
  {
    ProtectThenAdmin(caller);
    DispatchAt(Table, Get, [], 4);
  }

  /** `/config/paypal` has two pieces, so `/:id` cannot take it. */
  lemma PayPalConfigReached(caller: Option<Caller>)
    ensures Handle(Table, Get, ["config", "paypal"], caller) == SignedIn(caller, GetPayPalClientId)
  {
    DispatchAt(Table, Get, ["config", "paypal"], 5);
  }

  /** Delivery needs an administrator; payment only a signed-in caller. */
  lemma DeliverNeedsAdminPayDoesNot(id: string, caller: Option<Caller>)
    requires id != ""
    ensures Handle(Table, Put, [id, "deliver"], caller) == AdminOnly(caller, UpdateOrderToDelivered)
    ensures Handle(Table, Put, [id, "pay"], caller) == SignedIn(caller, UpdateOrderToPaid)
  {
    ProtectThenAdmin(caller);
    assert !SegmentMatches(Table[6].pattern[1], [id, "pay"][1]);
    DispatchAt(Table, Put, [id, "deliver"], 6);
    DispatchAt(Table, Put, [id, "pay"], 7);
  }
}
