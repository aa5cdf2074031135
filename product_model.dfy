/** The product schema of backend/models/productModel.js: which fields a
    product document must carry, the defaults the store fills in, and the
    creation/update timestamps it maintains. The schema declares neither a
    review list nor an owner. */
module ProductModel {
  import opened Http

  /** A stored product document. Prices and ratings are JavaScript numbers
      (`real` here); stock and review counts are whole numbers. */
  datatype Product = Product(
    id: nat,
    name: string,
    description: string,
    price: real,
    stock: int,
    category: string,
    image: string,
    brand: string,
    rating: real,
    numReviews: int,
    createdAt: int,
    updatedAt: int)

  /** The fields a request body may supply; `None` is an absent field. */
  datatype ProductFields = ProductFields(
    name: Option<string>,
    description: Option<string>,
    price: Option<real>,
    stock: Option<int>,
    category: Option<string>,
    image: Option<string>,
    brand: Option<string>,
    rating: Option<real>,
    numReviews: Option<int>)

  /** A required String path: present and not the empty string. */
  predicate RequiredText(v: Option<string>) {
    v.Some? && v.value != ""
  }

  /** Every required path of the schema is satisfied. */
  predicate Complete(f: ProductFields) {
    && RequiredText(f.name)
    && RequiredText(f.description)
    && f.price.Some?
    && RequiredText(f.category)
    && RequiredText(f.image)
    && RequiredText(f.brand)
  }

  /** What the schema guarantees of every stored product. */
  predicate Valid(p: Product) {
    && p.name != ""
    && p.description != ""
    && p.category != ""
    && p.image != ""
    && p.brand != ""
  }

  const ValidationFailed := "Product validation failed"

  /** `new Product(fields).save()` at time `now`: validation, then the
      defaults (stock, rating and numReviews 0) and both timestamps. */
  function NewProduct(id: nat, f: ProductFields, now: int): (r: Result<Product>)
    ensures r.Ok? <==> Complete(f)
    ensures r.Err? ==> r.failure == Invalid(ValidationFailed)
    ensures r.Ok? ==> Valid(r.value) && r.value.id == id
    ensures r.Ok? ==> (&& Some(r.value.name) == f.name && Some(r.value.description) == f.description
                       && Some(r.value.price) == f.price && Some(r.value.category) == f.category
                       && Some(r.value.image) == f.image && Some(r.value.brand) == f.brand)
    ensures r.Ok? ==> r.value.createdAt == now && r.value.updatedAt == now
    ensures r.Ok? ==> r.value.stock == (if f.stock.Some? then f.stock.value else 0)
    ensures r.Ok? ==> r.value.rating == (if f.rating.Some? then f.rating.value else 0.0)
    ensures r.Ok? ==> r.value.numReviews == (if f.numReviews.Some? then f.numReviews.value else 0)
  {
    if !Complete(f) then Err(Invalid(ValidationFailed))
    else
      Ok(Product(id, f.name.value, f.description.value, f.price.value, f.stock.GetOr(0),
                 f.category.value, f.image.value, f.brand.value,
                 f.rating.GetOr(0.0), f.numReviews.GetOr(0), now, now))
  }

  /** The body that reproduces a stored product's fields. */
  function FieldsOf(p: Product): ProductFields {
    ProductFields(Some(p.name), Some(p.description), Some(p.price), Some(p.stock),
                  Some(p.category), Some(p.image), Some(p.brand),
                  Some(p.rating), Some(p.numReviews))
  }

  /** The schema accepts exactly the documents it describes: every valid
      product, freshly stamped, can be created from its own fields. */
  lemma ValidProductsAreCreatable(p: Product)
    requires Valid(p) && p.createdAt == p.updatedAt
    ensures NewProduct(p.id, FieldsOf(p), p.createdAt) == Ok(p)
  {
  }

  /** Leaving out any required field makes creation fail, whatever else the
      body holds. */
  lemma MissingRequiredFieldFails(id: nat, f: ProductFields, now: int)
    requires f.name.None? || f.description.None? || f.price.None?
             || f.category.None? || f.image.None? || f.brand.None?
    ensures NewProduct(id, f, now) == Err(Invalid(ValidationFailed))
  {
  }

  /** A body with only the required fields gets stock, rating and
      numReviews 0. */
  lemma DefaultsApply(id: nat, f: ProductFields, now: int)
    requires Complete(f) && f.stock.None? && f.rating.None? && f.numReviews.None?
    ensures NewProduct(id, f, now).Ok?
    ensures NewProduct(id, f, now).value.stock == 0
    ensures NewProduct(id, f, now).value.rating == 0.0
    ensures NewProduct(id, f, now).value.numReviews == 0
  {
  }

  /** `doc.save()` on an existing document: the update timestamp moves to
      `now` only when some path actually changed. */
  function Saved(before: Product, after: Product, now: int): (r: Product)
    requires after.updatedAt == before.updatedAt
    ensures r.(updatedAt := before.updatedAt) == after
    ensures r.updatedAt == if after == before then before.updatedAt else now
  {
    if after == before then before else after.(updatedAt := now)
  }
}
