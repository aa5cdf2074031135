/** The order route table of backend/routes/orderRoutes.js, in
    registration order: the same routes as the newer table without the
    duplicate `POST /` and without `/config/paypal`. */
module LegacyOrderRoutes {
  import opened Http
  import opened Routing

  datatype Handler =
    | GetMyOrders | AddOrderItems | GetOrderById | GetOrders
    | UpdateOrderToDelivered | UpdateOrderToPaid

  const Table: seq<Route<Handler>> := [
    Route(Get, [Lit("myorders")], [Protect], GetMyOrders),
    Route(Post, [], [Protect], AddOrderItems),
    Route(Get, [Param("id")], [Protect], GetOrderById),
    Route(Get, [], [Protect, Admin], GetOrders),
    Route(Put, [Param("id"), Lit("deliver")], [Protect, Admin], UpdateOrderToDelivered),
    Route(Put, [Param("id"), Lit("pay")], [Protect], UpdateOrderToPaid)
  ]

  function SignedIn(caller: Option<Caller>, h: Handler): Outcome<Handler> {
    if caller.None? then Denied(Unauthenticated) else Handled(h)
  }

  function AdminOnly(caller: Option<Caller>, h: Handler): Outcome<Handler> {
    if caller.None? then Denied(Unauthenticated)
    else if !caller.value.isAdmin then Denied(NotAdmin)
    else Handled(h)
  }

  lemma AdminAlwaysAfterProtect()
    ensures forall i :: 0 <= i < |Table| ==> AdminAfterProtect(Table[i].guards)
  {
    assert [Protect, Admin][1] == Admin && [Protect, Admin][0] == Protect;
  }

  /** `/myorders` is registered before `/:id`. */
  lemma MyOrdersIsNotAnId(caller: Option<Caller>)
    ensures Handle(Table, Get, ["myorders"], caller) == SignedIn(caller, GetMyOrders)
  {
    DispatchAt(Table, Get, ["myorders"], 0);
  }

  lemma CreateNeedsProtectOnly(caller: Option<Caller>)
    ensures Handle(Table, Post, [], caller) == SignedIn(caller, AddOrderItems)
  {
    DispatchAt(Table, Post, [], 1);
  }

  lemma ListNeedsAdmin(caller: Option<Caller>)
    ensures Handle(Table, Get, [], caller) == AdminOnly(caller, GetOrders)
  {
    ProtectThenAdmin(caller);
    DispatchAt(Table, Get, [], 3);
  }

  lemma DeliverNeedsAdminPayDoesNot(id: string, caller: Option<Caller>)
    requires id != ""
    ensures Handle(Table, Put, [id, "deliver"], caller) == AdminOnly(caller, UpdateOrderToDelivered)
    ensures Handle(Table, Put, [id, "pay"], caller) == SignedIn(caller, UpdateOrderToPaid)
  {
    ProtectThenAdmin(caller);
    assert !SegmentMatches(Table[4].pattern[1], [id, "pay"][1]);
    DispatchAt(Table, Put, [id, "deliver"], 4);
    DispatchAt(Table, Put, [id, "pay"], 5);
  }

  /** No entry of this table takes `/config/paypal`. */
  lemma NoPayPalConfig(caller: Option<Caller>)
    ensures Handle(Table, Get, ["config", "paypal"], caller) == NoRoute
  {
    var path := ["config", "paypal"];
    assert !SegmentMatches(Table[0].pattern[0], path[0]);
    assert forall j :: 0 <= j < |Table| ==> !Matches(Table[j], Get, path);
  }
}
