/** The product route table of routes/productRoutes.js, in registration
    order. */
module ProductRoutes {
  import opened Http
  import opened Routing

  datatype Handler =
    | GetProducts | GetTopProducts | GetProductById
    | CreateProduct | UpdateProduct | DeleteProduct | CreateProductReview

  const Table: seq<Route<Handler>> := [
    Route(Post, [Param("id"), Lit("reviews")], [Protect], CreateProductReview),
    Route(Get, [Lit("top")], [], GetTopProducts),
    Route(Get, [], [], GetProducts),
    Route(Post, [], [Protect, Admin], CreateProduct),
    Route(Get, [Param("id")], [], GetProductById),
    Route(Put, [Param("id")], [Protect, Admin], UpdateProduct),
    Route(Delete, [Param("id")], [Protect, Admin], DeleteProduct)
  ]

  /** No chain in the table uses `admin` without `protect` before it. */
  lemma AdminAlwaysAfterProtect()
    ensures forall i :: 0 <= i < |Table| ==> AdminAfterProtect(Table[i].guards)
  {
    assert [Protect, Admin][1] == Admin && [Protect, Admin][0] == Protect;
  }

  /** `/top` is registered before `/:id`, so it reaches the top-products
      handler, for anyone. */
  lemma TopIsNotAnId(caller: Option<Caller>)
    ensures Handle(Table, Get, ["top"], caller) == Handled(GetTopProducts)
  {
    DispatchAt(Table, Get, ["top"], 1);
  }

  /** Any other single piece is read as a product id, with no guard. */
  lemma GetByIdIsPublic(id: string, caller: Option<Caller>)
    requires id != "" && id != "top"
    ensures Handle(Table, Get, [id], caller) == Handled(GetProductById)
  {
    assert !SegmentMatches(Table[1].pattern[0], [id][0]);
    DispatchAt(Table, Get, [id], 4);
  }

  /** Listing is public. */
  lemma ListIsPublic(caller: Option<Caller>)
    ensures Handle(Table, Get, [], caller) == Handled(GetProducts)
  {
    DispatchAt(Table, Get, [], 2);
  }

  /** Posting a review needs a signed-in caller, not an administrator. */
  lemma ReviewNeedsProtectOnly(id: string, caller: Option<Caller>)
    requires id != ""
    ensures Handle(Table, Post, [id, "reviews"], caller)
            == if caller.Some? then Handled(CreateProductReview) else Denied(Unauthenticated)
  {
    DispatchAt(Table, Post, [id, "reviews"], 0);
  }

  /** The outcome of a `protect, admin` chain in front of `h`. */
  function AdminOnly(caller: Option<Caller>, h: Handler): Outcome<Handler> {
    if caller.None? then Denied(Unauthenticated)
    else if !caller.value.isAdmin then Denied(NotAdmin)
    else Handled(h)
  }

  /** Creating, updating and deleting need `protect` and then `admin`. */
  lemma WritesNeedAdmin(id: string, caller: Option<Caller>)
    requires id != ""
    ensures Handle(Table, Post, [], caller) == AdminOnly(caller, CreateProduct)
    ensures Handle(Table, Put, [id], caller) == AdminOnly(caller, UpdateProduct)
    ensures Handle(Table, Delete, [id], caller) == AdminOnly(caller, DeleteProduct)
  {
    ProtectThenAdmin(caller);
    DispatchAt(Table, Post, [], 3);
    DispatchAt(Table, Put, [id], 5);
    DispatchAt(Table, Delete, [id], 6);
  }
}
