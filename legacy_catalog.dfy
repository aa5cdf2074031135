/** The product handlers of backend/controllers/productController.js over
    an in-memory product table: list everything, look one up, create from
    the body, update with `||`, delete. */
module LegacyCatalog {
  import opened Http
  import opened Seqs
  import opened ProductModel

  const NotFoundMessage := "Product not found"
  const RemovedMessage := "Product removed"

  /** The seven fields an update body may carry. */
  datatype ProductPatch = ProductPatch(
    name: Option<string>,
    description: Option<string>,
    price: Option<real>,
    stock: Option<int>,
    category: Option<string>,
    image: Option<string>,
    brand: Option<string>)

  /** JavaScript truthiness of a supplied string and of a supplied number. */
  predicate TruthyText(v: Option<string>) { v.Some? && v.value != "" }
  predicate TruthyReal(v: Option<real>) { v.Some? && v.value != 0.0 }
  predicate TruthyInt(v: Option<int>) { v.Some? && v.value != 0 }

  /** `a || b` for a body value `a` and a stored value `b`. */
  function OrText(a: Option<string>, b: string): string { if TruthyText(a) then a.value else b }
  function OrReal(a: Option<real>, b: real): real { if TruthyReal(a) then a.value else b }
  function OrInt(a: Option<int>, b: int): int { if TruthyInt(a) then a.value else b }

  /** The seven `||` assignments followed by `save()` at time `now`. */
  function Patch(p: Product, b: ProductPatch, now: int): (q: Product)
    ensures q.(name := p.name, description := p.description, price := p.price, stock := p.stock,
               category := p.category, image := p.image, brand := p.brand, updatedAt := p.updatedAt) == p
    ensures q.updatedAt == p.updatedAt || q.updatedAt == now
  {
    Saved(p, p.(name := OrText(b.name, p.name),
                description := OrText(b.description, p.description),
                price := OrReal(b.price, p.price),
                stock := OrInt(b.stock, p.stock),
                category := OrText(b.category, p.category),
                image := OrText(b.image, p.image),
                brand := OrText(b.brand, p.brand)), now)
  }

  /** A supplied field replaces the stored one exactly when it is truthy. */
  lemma PatchReplacesTruthyFields(p: Product, b: ProductPatch, now: int)
    ensures Patch(p, b, now).name == (if TruthyText(b.name) then b.name.value else p.name)
    ensures Patch(p, b, now).price == (if TruthyReal(b.price) then b.price.value else p.price)
    ensures Patch(p, b, now).stock == (if TruthyInt(b.stock) then b.stock.value else p.stock)
    ensures Patch(p, b, now).description == (if TruthyText(b.description) then b.description.value else p.description)
    ensures Patch(p, b, now).category == (if TruthyText(b.category) then b.category.value else p.category)
    ensures Patch(p, b, now).image == (if TruthyText(b.image) then b.image.value else p.image)
    ensures Patch(p, b, now).brand == (if TruthyText(b.brand) then b.brand.value else p.brand)
  {
  }

  /** Price 0, stock 0 and empty strings cannot be stored by an update. */
  lemma PatchCannotClear(p: Product, b: ProductPatch, now: int)
    requires b.price == Some(0.0) && b.stock == Some(0)
    requires b.name == Some("") && b.description == Some("") && b.category == Some("")
    requires b.image == Some("") && b.brand == Some("")
    ensures Patch(p, b, now) == p
  {
  }

  /** An update touches only the seven listed fields and the update stamp. */
  lemma PatchTouchesOnlySevenFields(p: Product, b: ProductPatch, now: int)
    ensures var q := Patch(p, b, now);
      && q.id == p.id && q.rating == p.rating && q.numReviews == p.numReviews
      && q.createdAt == p.createdAt
      && (q.updatedAt == p.updatedAt || q.updatedAt == now)
  {
  }

  /** Applying the same body twice is applying it once, at whatever time
      the second request arrives. */
  lemma PatchIdempotent(p: Product, b: ProductPatch, now: int, later: int)
    ensures Patch(Patch(p, b, now), b, later) == Patch(p, b, now)
  {
  }

  /** An update keeps the schema satisfied: truthy strings are non-empty. */
  lemma PatchKeepsValid(p: Product, b: ProductPatch, now: int)
    requires Valid(p)
    ensures Valid(Patch(p, b, now))
  {
  }

  function Id(p: Product): nat { p.id }

  /** The product table. Identifiers come from a counter standing in for the
      store's generated ids. */
  class ProductStore {
    var products: seq<Product>
    var nextId: nat

    ghost predicate Valid()
      reads this
    {
      && DistinctKeys(products, Id)
      && (forall i :: 0 <= i < |products| ==> products[i].id < nextId)
      && (forall i :: 0 <= i < |products| ==> ProductModel.Valid(products[i]))
    }

    constructor ()
      ensures Valid() && products == []
    {
      products := [];
      nextId := 0;
    }

    /** GET /: every stored product, in table order. */
    method GetProducts() returns (r: seq<Product>)
      ensures r == products
    {
      r := products;
    }

    /** GET /:id: the product, or 404 "Product not found". */
    method GetProductById(id: nat) returns (r: Result<Product>)
      requires Valid()
      ensures r.Ok? <==> exists i :: 0 <= i < |products| && products[i].id == id
      ensures r.Ok? ==> r.value in products && r.value.id == id
      ensures r.Err? ==> r.failure == NotFound(NotFoundMessage)
    {
      match IndexOf(products, Id, id)
      case None =>
        r := Err(NotFound(NotFoundMessage));
      case Some(i) =>
        r := Ok(products[i]);
    }

    /** POST /: the body's nine fields are copied into a new document, rating
        and review count included; validation failure stores nothing. */
    method CreateProduct(body: ProductFields, now: int) returns (r: Result<Product>)
      requires Valid()
      modifies this
      ensures Valid()
      ensures r == NewProduct(old(nextId), body, now)
      ensures r.Ok? ==> products == old(products) + [r.value] && nextId == old(nextId) + 1
      ensures r.Err? ==> products == old(products) && nextId == old(nextId)
    {
      r := NewProduct(nextId, body, now);
      if r.Ok? {
        products := products + [r.value];
        nextId := nextId + 1;
      }
    }

    /** PUT /:id: the seven `||` assignments on the stored document, then
        `save()`; 404 and no change when the id is unknown. */
    method UpdateProduct(id: nat, body: ProductPatch, now: int) returns (r: Result<Product>)
      requires Valid()
      modifies this
      ensures Valid() && nextId == old(nextId)
      ensures r.Err? <==> forall i :: 0 <= i < |old(products)| ==> old(products)[i].id != id
      ensures r.Err? ==> r.failure == NotFound(NotFoundMessage) && products == old(products)
      ensures r.Ok? ==> exists i :: 0 <= i < |old(products)| && old(products)[i].id == id
                          && r.value == Patch(old(products)[i], body, now)
                          && products == old(products)[i := r.value]
    {
      match IndexOf(products, Id, id)
      case None =>
        r := Err(NotFound(NotFoundMessage));
      case Some(i) =>
        var before := products[i];
        var p := before;
        p := p.(name := OrText(body.name, p.name));
        p := p.(description := OrText(body.description, p.description));
        p := p.(price := OrReal(body.price, p.price));
        p := p.(stock := OrInt(body.stock, p.stock));
        p := p.(category := OrText(body.category, p.category));
        p := p.(image := OrText(body.image, p.image));
        p := p.(brand := OrText(body.brand, p.brand));
        if p != before {
          p := p.(updatedAt := now);
        }
        PatchKeepsValid(before, body, now);
        products := products[i := p];
        r := Ok(p);
    }

    /** DELETE /:id: removes exactly that product, or 404 and no change. */
    method DeleteProduct(id: nat) returns (r: Result<string>)
      requires Valid()
      modifies this
      ensures Valid() && nextId == old(nextId)
      ensures r.Err? <==> forall i :: 0 <= i < |old(products)| ==> old(products)[i].id != id
      ensures r.Err? ==> r.failure == NotFound(NotFoundMessage) && products == old(products)
      ensures r.Ok? ==> r == Ok(RemovedMessage)
      ensures r.Ok? ==> exists i :: 0 <= i < |old(products)| && old(products)[i].id == id
                          && products == old(products)[..i] + old(products)[i + 1..]
      ensures forall p :: p in products <==> p in old(products) && (r.Ok? ==> p.id != id)
    {
      match IndexOf(products, Id, id)
      case None =>
        r := Err(NotFound(NotFoundMessage));
      case Some(i) =>
        RemoveAtKey(products, Id, i);
        products := products[..i] + products[i + 1..];
        r := Ok(RemovedMessage);
    }
  }
}
