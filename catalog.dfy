/** The product handlers of controllers/productController.js over an
    in-memory product table whose documents embed their reviews: paginated
    listing with an optional text search, the top-rated three, lookup,
    placeholder creation, update with `??`, delete, and review submission
    with its guard chain and the recomputed count and mean rating. */
module Catalog {
  import opened Http
  import opened Seqs
  import OrderModel
  import LegacyCatalog

  const PageSize := 10
  const TopCount := 3
  const TopThreshold := 4.0

  const NotFoundMessage := "Product not found"
  const RemovedMessage := "Product removed"
  const NotPurchased := "You can only review products you have purchased and received."
  const AlreadyReviewed := "Product already reviewed by this user"
  /** The store refuses a negative `skip`. */
  const NegativeSkip := "skip must be non-negative"

  datatype Review = Review(name: string, rating: int, comment: Option<string>, user: UserId)

  /** A product document with its owner and its embedded reviews. */
  datatype Product = Product(
    id: nat,
    user: UserId,
    name: string,
    description: string,
    price: real,
    stock: int,
    category: string,
    image: string,
    brand: string,
    rating: real,
    numReviews: int,
    reviews: seq<Review>)

  function Id(p: Product): nat { p.id }
  function Rating(p: Product): real { p.rating }

  // ---------------------------------------------------------------------------
  // The review invariant

  /** `reviews.reduce((acc, item) => item.rating + acc, 0)`. */
  function RatingSum(rs: seq<Review>): int {
    if rs == [] then 0 else RatingSum(rs[..|rs| - 1]) + rs[|rs| - 1].rating
  }

  /** The mean rating; an unreviewed product rates 0. */
  function Mean(rs: seq<Review>): (m: real)
    ensures rs == [] ==> m == 0.0
    ensures m * |rs| as real == RatingSum(rs) as real || rs == []
  {
    if rs == [] then 0.0 else RatingSum(rs) as real / |rs| as real
  }

  predicate ReviewedBy(rs: seq<Review>, user: UserId) {
    exists i :: 0 <= i < |rs| && rs[i].user == user
  }

  predicate OneReviewPerUser(rs: seq<Review>) {
    forall i, j :: 0 <= i < j < |rs| ==> rs[i].user != rs[j].user
  }

  /** The invariant every product created and reviewed through these
      handlers keeps: the count and the rating are those of the reviews,
      and no user has reviewed twice. */
  predicate Consistent(p: Product) {
    && p.numReviews == |p.reviews|
    && p.rating == Mean(p.reviews)
    && OneReviewPerUser(p.reviews)
  }

  lemma RatingSumAppend(rs: seq<Review>, r: Review)
    ensures RatingSum(rs + [r]) == RatingSum(rs) + r.rating
  {
    assert (rs + [r])[..|rs|] == rs;
  }

  /** The mean after one more review, from the mean before it. */
  lemma MeanAfterAppend(rs: seq<Review>, r: Review)
    ensures Mean(rs + [r]) * (|rs| + 1) as real == Mean(rs) * |rs| as real + r.rating as real
  {
    RatingSumAppend(rs, r);
  }

  lemma {:induction false} RatingSumBounds(rs: seq<Review>, lo: int, hi: int)
    requires forall i :: 0 <= i < |rs| ==> lo <= rs[i].rating <= hi
    ensures lo * |rs| <= RatingSum(rs) <= hi * |rs|
  {
    if rs != [] {
      RatingSumBounds(rs[..|rs| - 1], lo, hi);
    }
  }

  lemma QuotientBounds(s: real, n: real, lo: real, hi: real)
    requires n > 0.0 && lo * n <= s <= hi * n
    ensures lo <= s / n <= hi
  {
    var q := s / n;
    assert q * n == s;
  }

  /** When every rating lies in `lo..hi`, so does the mean. */
  lemma MeanWithinBounds(rs: seq<Review>, lo: int, hi: int)
    requires rs != []
    requires forall i :: 0 <= i < |rs| ==> lo <= rs[i].rating <= hi
    ensures lo as real <= Mean(rs) <= hi as real
  {
    RatingSumBounds(rs, lo, hi);
    var total, n := RatingSum(rs), |rs|;
    CastBounds(total, n, lo, hi);
    QuotientBounds(total as real, n as real, lo as real, hi as real);
    assert Mean(rs) == total as real / n as real;
  }

  lemma CastBounds(s: int, n: int, lo: int, hi: int)
    requires lo * n <= s <= hi * n
    ensures lo as real * n as real <= s as real <= hi as real * n as real
  {
    assert (lo * n) as real == lo as real * n as real;
    assert (hi * n) as real == hi as real * n as real;
  }

  // ---------------------------------------------------------------------------
  // Listing

  /** `Number(pageNumber) || 1`; `None` stands for an absent or non-numeric
      query value (NaN). */
  function PageNumber(q: Option<int>): (page: int)
    ensures page != 0
    ensures q.Some? && q.value != 0 ==> page == q.value
    ensures q.None? || q.value == 0 ==> page == 1
  {
    if q.Some? && q.value != 0 then q.value else 1
  }

  /** `Math.ceil(count / pageSize)`. */
  function PageCount(count: nat): (pages: nat)
    ensures PageSize * pages >= count
    ensures pages > 0 ==> PageSize * (pages - 1) < count
  {
    (count + PageSize - 1) / PageSize
  }

  /** The products a search selects: all of them for an absent or empty
      keyword, otherwise those the text index matches. */
  function Matching(products: seq<Product>, keyword: Option<string>, textMatch: (string, Product) -> bool)
    : (r: seq<Product>)
    ensures keyword.None? || keyword.value == "" ==> r == products
    ensures forall p :: p in r ==> p in products
  {
    if keyword.None? || keyword.value == "" then products
    else Filter(products, (p: Product) => textMatch(keyword.value, p))
  }

  datatype Page = Page(products: seq<Product>, page: int, pages: nat)

  /** `getProducts`: the requested page of at most ten matching products,
      the page number and the page count. */
  function ProductPage(products: seq<Product>, pageNumber: Option<int>, keyword: Option<string>,
                      textMatch: (string, Product) -> bool): (r: Result<Page>)
    ensures r.Err? <==> PageNumber(pageNumber) < 1
    ensures r.Err? ==> r.failure == ServerError(NegativeSkip)
    ensures r.Ok? ==> var m := Matching(products, keyword, textMatch);
              && r.value.page == PageNumber(pageNumber)
              && r.value.pages == PageCount(|m|)
              && r.value.products == Window(m, PageSize * (r.value.page - 1), PageSize)
  {
    var page := PageNumber(pageNumber);
    var m := Matching(products, keyword, textMatch);
    if page < 1 then Err(ServerError(NegativeSkip))
    else Ok(Page(Window(m, PageSize * (page - 1), PageSize), page, PageCount(|m|)))
  }

  /** Every matching product is on exactly one page: the one numbered
      `k / 10 + 1`, at position `k % 10`. */
  lemma PageLocates(m: seq<Product>, k: nat)
    requires k < |m|
    ensures 1 <= k / PageSize + 1 <= PageCount(|m|)
    ensures var w := Window(m, PageSize * (k / PageSize), PageSize);
              k % PageSize < |w| && w[k % PageSize] == m[k]
  {
    assert k == PageSize * (k / PageSize) + k % PageSize;
  }

  /** Pages before the last are full, the last holds the remainder, and any
      page past it is empty. */
  lemma PageSizes(m: seq<Product>, page: nat)
    requires page >= 1
    ensures page < PageCount(|m|) ==> |Window(m, PageSize * (page - 1), PageSize)| == PageSize
    ensures page == PageCount(|m|) ==>
              |Window(m, PageSize * (page - 1), PageSize)| == |m| - PageSize * (page - 1)
    ensures page > PageCount(|m|) ==> Window(m, PageSize * (page - 1), PageSize) == []
  {
  }

  /** Fifteen products and no keyword: two pages, the second holding the
      last five. */
  lemma FifteenProducts(products: seq<Product>, textMatch: (string, Product) -> bool)
    requires |products| == 15
    ensures ProductPage(products, Some(2), None, textMatch)
            == Ok(Page(products[10..], 2, 2))
  {
    assert Window(products, 10, 10) == products[10..];
  }

  predicate TopRated(p: Product) { p.rating >= TopThreshold }

  /** `getTopProducts`: products rated at least 4, best first, at most
      three. */
  function TopProducts(products: seq<Product>): (r: seq<Product>)
    ensures |r| <= TopCount
    ensures forall p :: p in r ==> p in products && TopRated(p)
    ensures NonIncreasing(r, Rating)
    ensures multiset(r) <= multiset(Filter(products, TopRated))
    ensures |r| == Min(TopCount, |Filter(products, TopRated)|)
    ensures forall q :: q in multiset(Filter(products, TopRated)) - multiset(r) ==>
              |r| == TopCount && q.rating <= r[TopCount - 1].rating
  {
    var high := Filter(products, TopRated);
    var sorted := SortDesc(high, Rating);
    var k := Min(TopCount, |sorted|);
    TopOfSorted(high, sorted, k);
    sorted[..k]
  }

  /** The first `k` of a best-first ordering of `high` are drawn from
      `high`, and whatever they leave out ranks no higher than the last of
      them. */
  lemma TopOfSorted(high: seq<Product>, sorted: seq<Product>, k: nat)
    requires NonIncreasing(sorted, Rating) && multiset(sorted) == multiset(high)
    requires k == Min(TopCount, |sorted|)
    ensures multiset(sorted[..k]) <= multiset(high)
    ensures forall p :: p in sorted[..k] ==> p in high
    ensures NonIncreasing(sorted[..k], Rating)
    ensures forall q :: q in multiset(high) - multiset(sorted[..k]) ==>
              k == TopCount && q.rating <= sorted[k - 1].rating
  {
    assert sorted == sorted[..k] + sorted[k..];
    assert multiset(sorted) == multiset(sorted[..k]) + multiset(sorted[k..]);
    if k > 0 {
      PrefixOfSortedIsTop(sorted, Rating, k);
    }
    if k < TopCount {
      assert sorted[..k] == sorted;
    }
    forall p | p in sorted[..k] ensures p in high {
      assert p in multiset(sorted[..k]);
    }
  }

  // ---------------------------------------------------------------------------
  // Creation and update

  /** The document `createProduct` inserts: fixed placeholder values, owned
      by the caller, with no reviews. */
  function Placeholder(id: nat, owner: UserId): (p: Product)
    ensures p.id == id && p.user == owner && p.reviews == [] && p.numReviews == 0 && p.rating == 0.0
    ensures p.name == "Sample name" && p.description == "Sample description"
    ensures p.price == 0.0 && p.stock == 0 && p.category == "Electronics"
    ensures p.image == "/images/sample.jpg" && p.brand == "Generic Brand"
    ensures Consistent(p)
  {
    Product(id, owner, "Sample name", "Sample description", 0.0, 0, "Electronics",
            "/images/sample.jpg", "Generic Brand", 0.0, 0, [])
  }

  /** The seven `??` assignments of `updateProduct`. */
  function Patch(p: Product, b: LegacyCatalog.ProductPatch): (q: Product)
    ensures q.(name := p.name, description := p.description, price := p.price, stock := p.stock,
               category := p.category, image := p.image, brand := p.brand) == p
  {
    p.(name := b.name.GetOr(p.name),
       description := b.description.GetOr(p.description),
       price := b.price.GetOr(p.price),
       stock := b.stock.GetOr(p.stock),
       category := b.category.GetOr(p.category),
       image := b.image.GetOr(p.image),
       brand := b.brand.GetOr(p.brand))
  }

  /** Each supplied value is stored, 0 and "" included; each absent field
      keeps its old value; nothing else changes, so the review invariant is
      kept. */
  lemma PatchAppliesSuppliedFields(p: Product, b: LegacyCatalog.ProductPatch)
    ensures Patch(p, b).name == (if b.name.Some? then b.name.value else p.name)
    ensures Patch(p, b).description == (if b.description.Some? then b.description.value else p.description)
    ensures Patch(p, b).price == (if b.price.Some? then b.price.value else p.price)
    ensures Patch(p, b).stock == (if b.stock.Some? then b.stock.value else p.stock)
    ensures Patch(p, b).category == (if b.category.Some? then b.category.value else p.category)
    ensures Patch(p, b).image == (if b.image.Some? then b.image.value else p.image)
    ensures Patch(p, b).brand == (if b.brand.Some? then b.brand.value else p.brand)
    ensures var q := Patch(p, b);
      && q.id == p.id && q.user == p.user && q.reviews == p.reviews
      && q.rating == p.rating && q.numReviews == p.numReviews
    ensures Consistent(p) ==> Consistent(Patch(p, b))
  {
  }

  /** Sending the same update twice stores what sending it once does. */
  lemma PatchIdempotent(p: Product, b: LegacyCatalog.ProductPatch)
    ensures Patch(Patch(p, b), b) == Patch(p, b)
  {
  }

  /** `??` and the older `||` agree on a body whose supplied values are all
      truthy. */
  lemma NullishAgreesWithOrOnTruthy(p: Product, b: LegacyCatalog.ProductPatch)
    requires b.name.Some? ==> b.name.value != ""
    requires b.description.Some? ==> b.description.value != ""
    requires b.price.Some? ==> b.price.value != 0.0
    requires b.stock.Some? ==> b.stock.value != 0
    requires b.category.Some? ==> b.category.value != ""
    requires b.image.Some? ==> b.image.value != ""
    requires b.brand.Some? ==> b.brand.value != ""
    ensures var q := Patch(p, b);
      && q.name == LegacyCatalog.OrText(b.name, p.name)
      && q.description == LegacyCatalog.OrText(b.description, p.description)
      && q.price == LegacyCatalog.OrReal(b.price, p.price)
      && q.stock == LegacyCatalog.OrInt(b.stock, p.stock)
      && q.category == LegacyCatalog.OrText(b.category, p.category)
      && q.image == LegacyCatalog.OrText(b.image, p.image)
      && q.brand == LegacyCatalog.OrText(b.brand, p.brand)
  {
  }

  /** They differ on a zero price: `??` stores it, `||` keeps the old one. */
  lemma NullishStoresZeroPrice(p: Product, b: LegacyCatalog.ProductPatch)
    requires b.price == Some(0.0) && p.price != 0.0
    ensures Patch(p, b).price == 0.0
    ensures LegacyCatalog.OrReal(b.price, p.price) == p.price
  {
  }

  // ---------------------------------------------------------------------------
  // Review submission

  /** Some delivered order of `user` contains product `pid`. */
  predicate HasDeliveredPurchase(orders: seq<OrderModel.Order>, user: UserId, pid: nat) {
    exists i, j :: 0 <= i < |orders| && orders[i].user == user && orders[i].isDelivered
                   && 0 <= j < |orders[i].orderItems| && orders[i].orderItems[j].product == pid
  }

  /** The product after the caller's review is pushed: one review at the
      end, the count and the mean recomputed. */
  function WithReview(p: Product, caller: Caller, rating: int, comment: Option<string>): (q: Product)
    ensures q.reviews == p.reviews + [Review(caller.name, rating, comment, caller.id)]
    ensures q.numReviews == |q.reviews| && q.rating == Mean(q.reviews)
    ensures q.(reviews := p.reviews, numReviews := p.numReviews, rating := p.rating) == p
  {
    var rs := p.reviews + [Review(caller.name, rating, comment, caller.id)];
    p.(reviews := rs, numReviews := |rs|, rating := Mean(rs))
  }

  /** `createProductReview`: 404 for an unknown product, then 403 without a
      delivered purchase, then 400 for a second review by the same user;
      otherwise the reviewed product. */
  function SubmitReview(products: seq<Product>, orders: seq<OrderModel.Order>, id: nat,
                        caller: Caller, rating: int, comment: Option<string>): (r: Result<Product>)
    ensures r == Err(NotFound(NotFoundMessage)) <==> forall i :: 0 <= i < |products| ==> products[i].id != id
    ensures r == Err(Forbidden(NotPurchased)) <==>
              (exists i :: 0 <= i < |products| && products[i].id == id)
              && !HasDeliveredPurchase(orders, caller.id, id)
    ensures r.Ok? || r == Err(NotFound(NotFoundMessage)) || r == Err(Forbidden(NotPurchased))
            || r == Err(BadRequest(AlreadyReviewed))
    ensures r == Err(BadRequest(AlreadyReviewed)) <==>
              exists i :: 0 <= i < |products| && products[i].id == id
                          && (forall j :: 0 <= j < i ==> products[j].id != id)
                          && HasDeliveredPurchase(orders, caller.id, id)
                          && ReviewedBy(products[i].reviews, caller.id)
    ensures r.Ok? ==> exists i :: 0 <= i < |products| && products[i].id == id
                        && !ReviewedBy(products[i].reviews, caller.id)
                        && r.value == WithReview(products[i], caller, rating, comment)
  {
    match IndexOf(products, Id, id)
    case None => Err(NotFound(NotFoundMessage))
    case Some(i) =>
      assert forall k :: (0 <= k < |products| && products[k].id == id
                          && (forall j :: 0 <= j < k ==> products[j].id != id)) ==> k == i by {
        forall k | 0 <= k < |products| && products[k].id == id
                   && (forall j :: 0 <= j < k ==> products[j].id != id)
          ensures k == i
        {
          assert !(k < i) && !(i < k);
        }
      }
      if !HasDeliveredPurchase(orders, caller.id, id) then Err(Forbidden(NotPurchased))
      else if ReviewedBy(products[i].reviews, caller.id) then Err(BadRequest(AlreadyReviewed))
      else Ok(WithReview(products[i], caller, rating, comment))
  }

  /** A review by a user who has not reviewed yet keeps the invariant. */
  lemma ReviewKeepsConsistent(p: Product, caller: Caller, rating: int, comment: Option<string>)
    requires Consistent(p) && !ReviewedBy(p.reviews, caller.id)
    ensures Consistent(WithReview(p, caller, rating, comment))
  {
    var rs := WithReview(p, caller, rating, comment).reviews;
    forall i, j | 0 <= i < j < |rs| ensures rs[i].user != rs[j].user {
      if j == |rs| - 1 {
        assert rs[i] == p.reviews[i];
      } else {
        assert rs[i] == p.reviews[i] && rs[j] == p.reviews[j];
      }
    }
  }

  /** Once a user's review is in, the same user's next review of the same
      product is refused with 400. */
  lemma SecondReviewRejected(products: seq<Product>, orders: seq<OrderModel.Order>, i: nat,
                             caller: Caller, rating: int, comment: Option<string>,
                             rating2: int, comment2: Option<string>)
    requires DistinctKeys(products, Id) && i < |products|
    requires SubmitReview(products, orders, products[i].id, caller, rating, comment).Ok?
    ensures var id := products[i].id;
      var q := SubmitReview(products, orders, id, caller, rating, comment).value;
      SubmitReview(products[i := q], orders, id, caller, rating2, comment2)
        == Err(BadRequest(AlreadyReviewed))
  {
    var id := products[i].id;
    var q := SubmitReview(products, orders, id, caller, rating, comment).value;
    assert q == WithReview(products[i], caller, rating, comment);
    var after := products[i := q];
    assert q.reviews[|q.reviews| - 1].user == caller.id;
    assert ReviewedBy(q.reviews, caller.id);
    assert after[i] == q && q.id == id;
    match IndexOf(after, Id, id) {
      case None =>
      case Some(k) =>
        assert after[k].id == id;
        assert products[k].id == id || k == i;
    }
  }

  /** The `reduce` that totals the ratings, one review at a time. */
  method SumRatings(rs: seq<Review>) returns (sum: int)
    ensures sum == RatingSum(rs)
  {
    sum := 0;
    var k := 0;
    while k < |rs|
      invariant 0 <= k <= |rs|
      invariant sum == RatingSum(rs[..k])
    {
      assert rs[..k + 1] == rs[..k] + [rs[k]];
      RatingSumAppend(rs[..k], rs[k]);
      sum := sum + rs[k].rating;
      k := k + 1;
    }
    assert rs[..k] == rs;
  }

  // ---------------------------------------------------------------------------
  // The handlers over a mutable table

  class ProductStore {
    var products: seq<Product>
    var nextId: nat

    ghost predicate Valid()
      reads this
    {
      && DistinctKeys(products, Id)
      && (forall i :: 0 <= i < |products| ==> products[i].id < nextId)
      && (forall i :: 0 <= i < |products| ==> Consistent(products[i]))
    }

    constructor ()
      ensures Valid() && products == []
    {
      products := [];
      nextId := 0;
    }

    /** GET /?pageNumber=&keyword= */
    method GetProducts(pageNumber: Option<int>, keyword: Option<string>,
                       textMatch: (string, Product) -> bool) returns (r: Result<Page>)
      ensures r == ProductPage(products, pageNumber, keyword, textMatch)
    {
      r := ProductPage(products, pageNumber, keyword, textMatch);
    }

    /** GET /top */
    method GetTopProducts() returns (r: seq<Product>)
      ensures r == TopProducts(products)
    {
      r := TopProducts(products);
    }

    /** GET /:id: the product, or 404 "Product not found". */
    method GetProductById(id: nat) returns (r: Result<Product>)
      ensures r.Ok? <==> exists i :: 0 <= i < |products| && products[i].id == id
      ensures r.Ok? ==> r.value in products && r.value.id == id
      ensures r.Err? ==> r.failure == NotFound(NotFoundMessage)
    {
      match IndexOf(products, Id, id)
      case None =>
        r := Err(NotFound(NotFoundMessage));
      case Some(i) =>
        r := Ok(products[i]);
    }

    /** POST /: inserts the placeholder, owned by the caller. */
    method CreateProduct(caller: Caller) returns (r: Product)
      requires Valid()
      modifies this
      ensures Valid()
      ensures r == Placeholder(old(nextId), caller.id)
      ensures products == old(products) + [r] && nextId == old(nextId) + 1
    {
      r := Placeholder(nextId, caller.id);
      products := products + [r];
      nextId := nextId + 1;
    }

    /** PUT /:id: the seven `??` assignments in place, or 404 and no change. */
    method UpdateProduct(id: nat, body: LegacyCatalog.ProductPatch) returns (r: Result<Product>)
      requires Valid()
      modifies this
      ensures Valid() && nextId == old(nextId)
      ensures r.Err? <==> forall i :: 0 <= i < |old(products)| ==> old(products)[i].id != id
      ensures r.Err? ==> r.failure == NotFound(NotFoundMessage) && products == old(products)
      ensures r.Ok? ==> exists i :: 0 <= i < |old(products)| && old(products)[i].id == id
                          && r.value == Patch(old(products)[i], body)
                          && products == old(products)[i := r.value]
    {
      match IndexOf(products, Id, id)
      case None =>
        r := Err(NotFound(NotFoundMessage));
      case Some(i) =>
        var p := products[i];
        PatchAppliesSuppliedFields(p, body);
        p := p.(name := body.name.GetOr(p.name));
        p := p.(description := body.description.GetOr(p.description));
        p := p.(price := body.price.GetOr(p.price));
        p := p.(stock := body.stock.GetOr(p.stock));
        p := p.(category := body.category.GetOr(p.category));
        p := p.(image := body.image.GetOr(p.image));
        p := p.(brand := body.brand.GetOr(p.brand));
        products := products[i := p];
        r := Ok(p);
    }

    /** DELETE /:id: removes exactly that product, or 404 and no change. */
    method DeleteProduct(id: nat) returns (r: Result<string>)
      requires Valid()
      modifies this
      ensures Valid() && nextId == old(nextId)
      ensures r.Err? <==> forall i :: 0 <= i < |old(products)| ==> old(products)[i].id != id
      ensures r.Err? ==> r.failure == NotFound(NotFoundMessage) && products == old(products)
      ensures r.Ok? ==> r == Ok(RemovedMessage)
      ensures forall p :: p in products <==> p in old(products) && (r.Ok? ==> p.id != id)
      ensures r.Ok? ==> exists i :: (0 <= i < |old(products)| && old(products)[i].id == id
                                     && products == old(products)[..i] + old(products)[i + 1..])
    {
      match IndexOf(products, Id, id)
      case None =>
        r := Err(NotFound(NotFoundMessage));
      case Some(i) =>
        RemoveAtKey(products, Id, i);
        products := products[..i] + products[i + 1..];
        r := Ok(RemovedMessage);
    }

    /** POST /:id/reviews: the guard chain, then the review is pushed, the
        count set to the number of reviews and the rating to their mean
        (summed one review at a time), and the product saved. On any error
        nothing is saved. */
    method CreateProductReview(id: nat, caller: Caller, rating: int, comment: Option<string>,
                               orders: seq<OrderModel.Order>) returns (r: Result<Product>)
      requires Valid()
      modifies this
      ensures Valid() && nextId == old(nextId)
      ensures r == SubmitReview(old(products), orders, id, caller, rating, comment)
      ensures r.Err? ==> products == old(products)
      ensures r.Ok? ==> exists i :: 0 <= i < |old(products)| && old(products)[i].id == id
                          && products == old(products)[i := r.value]
    {
      match IndexOf(products, Id, id)
      case None =>
        r := Err(NotFound(NotFoundMessage));
      case Some(i) =>
        var p := products[i];
        if !HasDeliveredPurchase(orders, caller.id, id) {
          r := Err(Forbidden(NotPurchased));
          return;
        }
        if ReviewedBy(p.reviews, caller.id) {
          r := Err(BadRequest(AlreadyReviewed));
          return;
        }
        ReviewKeepsConsistent(p, caller, rating, comment);
        var reviews := p.reviews + [Review(caller.name, rating, comment, caller.id)];
        var sum := SumRatings(reviews);
        p := p.(reviews := reviews);
        p := p.(numReviews := |reviews|);
        p := p.(rating := sum as real / |reviews| as real);
        products := products[i := p];
        r := Ok(p);
    }
  }
}
