/** The order schema of backend/models/orderModel.js: nested item, address
    and payment records, the required paths, and the defaults the store
    fills in (prices 0.0, both flags false, no payment or delivery time). */
module OrderModel {
  import opened Http

  datatype OrderItem = OrderItem(name: string, qty: int, image: string, price: real, product: nat)

  datatype ShippingAddress = ShippingAddress(address: string, city: string, postalCode: string, country: string)

  /** Every path of the payment sub-document is optional. */
  datatype PaymentResult = PaymentResult(
    id: Option<string>,
    status: Option<string>,
    updateTime: Option<string>,
    emailAddress: Option<string>)

  const NoPaymentResult := PaymentResult(None, None, None, None)

  datatype Order = Order(
    id: nat,
    user: UserId,
    orderItems: seq<OrderItem>,
    shippingAddress: ShippingAddress,
    paymentMethod: string,
    paymentResult: PaymentResult,
    taxPrice: real,
    shippingPrice: real,
    totalPrice: real,
    isPaid: bool,
    paidAt: Option<int>,
    isDelivered: bool,
    deliveredAt: Option<int>,
    createdAt: int,
    updatedAt: int)

  /** The fields a request body may supply for one item, the address and the
      order; `None` is an absent field. */
  datatype ItemFields = ItemFields(
    name: Option<string>, qty: Option<int>, image: Option<string>, price: Option<real>, product: Option<nat>)

  datatype AddressFields = AddressFields(
    address: Option<string>, city: Option<string>, postalCode: Option<string>, country: Option<string>)

  datatype OrderFields = OrderFields(
    orderItems: Option<seq<ItemFields>>,
    shippingAddress: Option<AddressFields>,
    paymentMethod: Option<string>,
    itemsPrice: Option<real>,
    taxPrice: Option<real>,
    shippingPrice: Option<real>,
    totalPrice: Option<real>)

  /** A required String path: present and not the empty string. */
  predicate RequiredText(v: Option<string>) {
    v.Some? && v.value != ""
  }

  predicate ItemComplete(f: ItemFields) {
    RequiredText(f.name) && f.qty.Some? && RequiredText(f.image) && f.price.Some? && f.product.Some?
  }

  predicate AddressComplete(a: Option<AddressFields>) {
    && a.Some?
    && RequiredText(a.value.address)
    && RequiredText(a.value.city)
    && RequiredText(a.value.postalCode)
    && RequiredText(a.value.country)
  }

  /** An absent item list is stored as the empty array. */
  function ItemsOf(f: OrderFields): seq<ItemFields> {
    f.orderItems.GetOr([])
  }

  /** Every required path of the schema is satisfied. Nothing requires the
      item list to be non-empty. */
  predicate Complete(f: OrderFields) {
    && (forall i :: 0 <= i < |ItemsOf(f)| ==> ItemComplete(ItemsOf(f)[i]))
    && AddressComplete(f.shippingAddress)
    && RequiredText(f.paymentMethod)
  }

  function ToItem(f: ItemFields): (r: OrderItem)
    requires ItemComplete(f)
    ensures ItemFieldsOf(r) == f
  {
    OrderItem(f.name.value, f.qty.value, f.image.value, f.price.value, f.product.value)
  }

  function ItemFieldsOf(it: OrderItem): ItemFields {
    ItemFields(Some(it.name), Some(it.qty), Some(it.image), Some(it.price), Some(it.product))
  }

  function ToItems(fs: seq<ItemFields>): (r: seq<OrderItem>)
    requires forall i :: 0 <= i < |fs| ==> ItemComplete(fs[i])
    ensures |r| == |fs|
    ensures forall i :: 0 <= i < |fs| ==> ItemFieldsOf(r[i]) == fs[i]
  {
    if fs == [] then [] else [ToItem(fs[0])] + ToItems(fs[1..])
  }

  /** What the schema guarantees of every stored order, together with the
      pairing of each flag with its time that the handlers maintain. */
  predicate Valid(o: Order) {
    && (forall i :: 0 <= i < |o.orderItems| ==> o.orderItems[i].name != "" && o.orderItems[i].image != "")
    && o.shippingAddress.address != "" && o.shippingAddress.city != ""
    && o.shippingAddress.postalCode != "" && o.shippingAddress.country != ""
    && o.paymentMethod != ""
    && (o.isPaid <==> o.paidAt.Some?)
    && (o.isPaid ==> o.paymentResult.updateTime.Some?)
    && (o.isDelivered <==> o.deliveredAt.Some?)
  }

  const ValidationFailed := "Order validation failed"

  /** `new Order({ user, ...fields }).save()` at time `now`. The schema has
      no `itemsPrice` path, so that field is dropped. */
  function NewOrder(id: nat, user: UserId, f: OrderFields, now: int): (r: Result<Order>)
    ensures r.Ok? <==> Complete(f)
    ensures r.Err? ==> r.failure == Invalid(ValidationFailed)
    ensures r.Ok? ==> Valid(r.value) && r.value.id == id && r.value.user == user
    ensures r.Ok? ==> |r.value.orderItems| == |ItemsOf(f)|
    ensures r.Ok? ==> forall i :: 0 <= i < |ItemsOf(f)| ==> ItemFieldsOf(r.value.orderItems[i]) == ItemsOf(f)[i]
    ensures r.Ok? ==> (var a := f.shippingAddress.value;
                       r.value.shippingAddress
                       == ShippingAddress(a.address.value, a.city.value, a.postalCode.value, a.country.value))
    ensures r.Ok? ==> r.value.paymentMethod == f.paymentMethod.value
    ensures r.Ok? ==> !r.value.isPaid && !r.value.isDelivered && r.value.paymentResult == NoPaymentResult
    ensures r.Ok? ==> (r.value.taxPrice == f.taxPrice.GetOr(0.0)
                       && r.value.shippingPrice == f.shippingPrice.GetOr(0.0)
                       && r.value.totalPrice == f.totalPrice.GetOr(0.0))
    ensures r.Ok? ==> r.value.createdAt == now && r.value.updatedAt == now
  {
    if !Complete(f) then Err(Invalid(ValidationFailed))
    else
      var a := f.shippingAddress.value;
      Ok(Order(id, user, ToItems(ItemsOf(f)),
               ShippingAddress(a.address.value, a.city.value, a.postalCode.value, a.country.value),
               f.paymentMethod.value, NoPaymentResult,
               f.taxPrice.GetOr(0.0), f.shippingPrice.GetOr(0.0), f.totalPrice.GetOr(0.0),
               false, None, false, None, now, now))
  }

  /** The schema itself accepts an order without items. */
  lemma SchemaAcceptsNoItems(id: nat, user: UserId, f: OrderFields, now: int)
    requires AddressComplete(f.shippingAddress) && RequiredText(f.paymentMethod)
    requires f.orderItems == Some([]) || f.orderItems.None?
    ensures NewOrder(id, user, f, now).Ok?
    ensures NewOrder(id, user, f, now).value.orderItems == []
  {
  }

  /** One incomplete item makes the whole order fail validation. */
  lemma IncompleteItemFails(id: nat, user: UserId, f: OrderFields, now: int, k: nat)
    requires k < |ItemsOf(f)| && !ItemComplete(ItemsOf(f)[k])
    ensures NewOrder(id, user, f, now) == Err(Invalid(ValidationFailed))
  {
  }

  /** `doc.save()` on an existing order: the update timestamp moves to `now`
      only when some path actually changed. */
  function Saved(before: Order, after: Order, now: int): (r: Order)
    requires after.updatedAt == before.updatedAt
    ensures r.(updatedAt := before.updatedAt) == after
    ensures r.updatedAt == if after == before then before.updatedAt else now
  {
    if after == before then before else after.(updatedAt := now)
  }
}
