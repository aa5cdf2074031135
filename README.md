# ShopSphere backend core, modelled in Dafny

ShopSphere is a small e-commerce REST backend (Express and Mongoose). This
project models its request-handling core with the database replaced by
in-memory tables and the clock by a `now` parameter, and proves what the
handlers promise.

- **Catalog** (`catalog.dfy`, module `Catalog`): the product handlers of
  `controllers/productController.js` over a table whose documents embed
  their reviews. This covers:
  - paginated listing with an optional text search;
  - the top-rated three;
  - placeholder creation;
  - update with `??`, and delete;
  - review submission: 404, then 403 without a delivered purchase, then
    400 for a second review. After that the review is appended and the
    count and mean rating are recomputed.
  The invariant `Consistent` (count and rating agree with the reviews, one
  review per user) is kept by every handler.
- **Older catalog** (`legacy_catalog.dfy`, `product_model.dfy`): the handlers
  of `backend/controllers/productController.js` and the schema of
  `backend/models/productModel.js`. These cover required fields, defaults,
  timestamps, creation copied from the body, and update with `||`, which
  cannot store 0 or "".
- **Orders** (`order_model.dfy`, `order_controller.dfy`): the schema of
  `backend/models/orderModel.js` and the handlers of
  `backend/controllers/orderController.js`. These cover:
  - creation, which requires a non-empty item list;
  - reading one order, for its owner or an admin;
  - the caller's own orders, newest first;
  - all orders;
  - the pay and deliver transitions. They are proved never to reset a
    flag, over any sequence of requests.
- **Uploads** (`upload.dfy`, `upload_middleware.dfy`, `legacy_upload.dfy`,
  `upload_route.dfy`). This covers:
  - multer's `single('image')` with the file filter, whose unanchored
    alternation amounts to substring containment;
  - the `fieldname-timestamp.ext` naming under `uploads/`;
  - the two allow-lists: jpg/jpeg/png/webp/avif, and jpe?g/png/gif/webp;
  - the plain-text response of `backend/routes/uploadRoutes.js`;
  - the slash and `uploads/` normalisation of `routes/uploadRoutes.js`.
- **Routing** (`routing.dfy`, `product_routes.dfy`, `order_routes.dfy`,
  `legacy_order_routes.dfy`): Express's first-match dispatch over an
  ordered table of (method, pattern, guards, handler). The `protect` and
  `admin` guards run in order, and each of the three route files is a
  constant table.
- **CORS** (`cors.dfy`): the `origin` callback of `server.js` and its
  exact-match allow-list.

The shared vocabulary lives in three modules:
- `http.dfy`: `Option`, `Result` and the failures, which stand for the
  status codes;
- `seqs.dfy`: filter, lookup by id, a descending sort, and a window;
- `text.dfy`: ASCII lower-casing, substring search, `path.extname` and
  decimal rendering.

Where a handler changes state in place (update, review, pay, deliver,
create, delete), it is a method of a store class (`ProductStore`,
`OrderStore`). That class holds the table as a `seq` field. Each method's
`ensures` ties the new table to the pure specification functions, and
those functions carry the proved properties.

## Model

| member | source | states |
|---|---|---|
| Catalog.PageNumber | controllers/productController.js:22 | `Number(pageNumber) \|\| 1`: the requested page when it is a non-zero number, otherwise 1; never 0 |
| Catalog.PageCount | controllers/productController.js:39 | `Math.ceil(count / 10)`: the least page count whose ten-item pages hold every match |
| Catalog.Matching | controllers/productController.js:24-33 | no keyword or an empty one selects every product; otherwise only products in the table are selected |
| Catalog.ProductPage | controllers/productController.js:20-40 | the page holds the at most ten matching products from index 10*(page-1), with the page number and the page count; a page below 1 gives a negative skip, which the store refuses |
| Catalog.PageLocates | controllers/productController.js:35-39 | every matching product appears on page k/10+1 at position k%10, and that page is within the page count |
| Catalog.PageSizes | controllers/productController.js:35-39 | pages before the last are full, the last holds the remainder, and pages past it are empty |
| Catalog.FifteenProducts | controllers/productController.js:33-39 | with fifteen products and no keyword, page 2 of 2 holds the last five |
| Catalog.TopProducts | controllers/productController.js:10-12 | at most three products, each rated at least 4, in non-increasing rating order, drawn from the table; fewer than three only when fewer qualify, and any left out ranks no higher than the third |
| Catalog.TopOfSorted | controllers/productController.js:11-12 | the first k of a descending sort are drawn from the input, stay sorted, and outrank what they leave out |
| Catalog.Placeholder | controllers/productController.js:59-75 | the created product has the given id, is owned by the caller, carries the sample values ("Sample name", "Sample description", price 0, stock 0, "Electronics", "/images/sample.jpg", "Generic Brand"), no reviews, rating 0 and count 0, and satisfies the review invariant |
| Catalog.Patch | controllers/productController.js:92-98 | the seven `??` assignments change those seven fields and no other |
| Catalog.PatchAppliesSuppliedFields | controllers/productController.js:86-98 | with `??` each of the seven fields takes the supplied value when one is supplied, 0 and "" included, and keeps its old value when none is; id, owner, reviews, rating and count are unchanged, so the review invariant is kept |
| Catalog.PatchIdempotent | controllers/productController.js:92-98 | sending the same update twice stores what sending it once does |
| Catalog.NullishAgreesWithOrOnTruthy | controllers/productController.js:92-98 | when every supplied value is truthy, `??` and the older `\|\|` update give the same seven fields |
| Catalog.NullishStoresZeroPrice | controllers/productController.js:94 | a supplied price 0 is stored by `??` but ignored by `\|\|` |
| Catalog.RatingSumAppend | controllers/productController.js:176 | the total of the ratings after one more review is the old total plus that rating |
| Catalog.MeanAfterAppend | controllers/productController.js:175-177 | the new mean times the new count is the old mean times the old count plus the new rating |
| Catalog.RatingSumBounds | controllers/productController.js:176 | when every rating lies in lo..hi, the total lies between lo and hi times the count |
| Catalog.MeanWithinBounds | controllers/productController.js:175-177 | when every rating lies in lo..hi, so does the mean rating |
| Catalog.WithReview | controllers/productController.js:163-177 | exactly one review (caller name, rating, comment, caller id) is appended at the end; the count is the number of reviews and the rating their mean; nothing else changes |
| Catalog.SubmitReview | controllers/productController.js:131-177 | 404 exactly when no product has the id; 403 exactly when it exists and the caller has no delivered order containing it; 400 exactly when, past both, the caller has already reviewed it; success only for a caller who has not reviewed yet, with the review appended |
| Catalog.ReviewKeepsConsistent | controllers/productController.js:152-177 | a review by a user who has not reviewed yet keeps the invariant: count equals number of reviews, rating equals their mean, one review per user |
| Catalog.SecondReviewRejected | controllers/productController.js:153-160 | after a successful review, the same user's next review of the same product is refused with 400 |
| Catalog.RatingSum | controllers/productController.js:176 | the `reduce` total of the ratings, taken as the reference the loop and the mean are measured against |
| Catalog.Mean | controllers/productController.js:175-177 | the mean times the number of reviews is the total of the ratings; no reviews gives 0 |
| Catalog.SumRatings | controllers/productController.js:176 | the `reduce` loop computes the total of the ratings |
| Catalog.ProductStore.GetProducts | controllers/productController.js:20-40 | answers with the listing of the current table |
| Catalog.ProductStore.GetTopProducts | controllers/productController.js:8-15 | answers with the top-rated selection of the current table |
| Catalog.ProductStore.GetProductById | controllers/productController.js:45-52 | the product with that id when one exists, otherwise 404 "Product not found" |
| Catalog.ProductStore.CreateProduct | controllers/productController.js:57-79 | appends the caller's placeholder under a fresh id and keeps the table invariant |
| Catalog.ProductStore.UpdateProduct | controllers/productController.js:85-106 | 404 and no change when the id is unknown; otherwise exactly that product is replaced by its `??` update, and the invariant is kept |
| Catalog.ProductStore.DeleteProduct | controllers/productController.js:112-122 | 404 and no change when the id is unknown; otherwise exactly the product with that id is removed, the rest keep their order, and "Product removed" is answered |
| Catalog.ProductStore.CreateProductReview | controllers/productController.js:127-181 | the result is the review submission's; on any error nothing is saved; on success only that product changes and the invariant is kept |
| LegacyCatalog.Patch | backend/controllers/productController.js:54-62 | the seven `\|\|` assignments and `save()` change those seven fields and the update stamp and nothing else; the stamp is kept or set to the request time |
| LegacyCatalog.PatchReplacesTruthyFields | backend/controllers/productController.js:54-60 | each of the seven fields is replaced exactly when the supplied value is truthy |
| LegacyCatalog.PatchCannotClear | backend/controllers/productController.js:54-60 | a body of 0 and "" values leaves the product unchanged, update stamp included |
| LegacyCatalog.PatchTouchesOnlySevenFields | backend/controllers/productController.js:49-62 | id, rating, review count and creation time are untouched; the update stamp is kept or set to now |
| LegacyCatalog.PatchIdempotent | backend/controllers/productController.js:54-62 | applying the same body twice, at any later time, equals applying it once |
| LegacyCatalog.PatchKeepsValid | backend/controllers/productController.js:54-62 | an update keeps every required string non-empty |
| LegacyCatalog.ProductStore.GetProducts | backend/controllers/productController.js:5-8 | every stored product, unfiltered and in table order |
| LegacyCatalog.ProductStore.GetProductById | backend/controllers/productController.js:13-20 | the product with that id when one exists, otherwise 404 "Product not found" |
| LegacyCatalog.ProductStore.CreateProduct | backend/controllers/productController.js:25-42 | the schema's creation from the body under a fresh id; on validation failure nothing is stored |
| LegacyCatalog.ProductStore.UpdateProduct | backend/controllers/productController.js:48-68 | 404 and no change when the id is unknown; otherwise exactly that product is replaced by its `\|\|` update and save |
| LegacyCatalog.ProductStore.DeleteProduct | backend/controllers/productController.js:74-84 | 404 and no change when the id is unknown; otherwise exactly that product is removed |
| ProductModel.NewProduct | backend/models/productModel.js:3-13 | creation succeeds exactly when name, description, price, category, image and brand are present (strings non-empty); it copies them, defaults stock, rating and count to 0, and stamps both times with now |
| ProductModel.ValidProductsAreCreatable | backend/models/productModel.js:3-13 | every valid, freshly stamped product is what creation from its own fields yields |
| ProductModel.MissingRequiredFieldFails | backend/models/productModel.js:4-10 | leaving out any required field fails validation |
| ProductModel.DefaultsApply | backend/models/productModel.js:7-12 | absent stock, rating and numReviews become 0 |
| ProductModel.Saved | backend/models/productModel.js:13 | saving moves the update stamp to now exactly when the document changed, and changes nothing else |
| OrderModel.ToItem | backend/models/orderModel.js:4-14 | a complete item body is stored field for field |
| OrderModel.ToItems | backend/models/orderModel.js:23 | the stored item list has the body's items, in order |
| OrderModel.NewOrder | backend/models/orderModel.js:16-73 | creation succeeds exactly when every item, the address and the payment method are complete; otherwise the validation error; items, the four address paths and the payment method are stored as given, prices default to 0.0, both flags to false, no payment or delivery time; itemsPrice is dropped |
| OrderModel.SchemaAcceptsNoItems | backend/models/orderModel.js:23 | the schema itself accepts an order without items |
| OrderModel.IncompleteItemFails | backend/models/orderModel.js:4-14 | one incomplete item makes the whole order fail validation |
| OrderModel.Saved | backend/models/orderModel.js:72 | saving moves the update stamp to now exactly when the document changed |
| OrderController.CreateOrder | backend/controllers/orderController.js:8-39 | a missing or empty item list is 400 "No order items"; with items the outcome is the schema's, so an incomplete body is the validation error and a complete one is stored as given; a created order belongs to the caller and has items |
| OrderController.CanView | backend/controllers/orderController.js:50 | an admin may read any order; anyone else exactly the orders they own |
| OrderController.OrderById | backend/controllers/orderController.js:44-59 | for the first order with the id: 404 exactly when there is none; a server error exactly when its owner record is gone; 403 exactly when the owner exists and the caller is neither owner nor admin; success exactly when the owner exists and the caller is owner or admin, answering with that order and its owner |
| OrderController.MyOrders | backend/controllers/orderController.js:64-68 | exactly the caller's orders, each as often as stored, newest first |
| OrderController.AllOrders | backend/controllers/orderController.js:74-78 | every order in table order, with its owner's name attached when the owner record exists |
| OrderController.PayChangesOnlyPayment | backend/controllers/orderController.js:86-99 | paying sets the flag, the time and the payment record from the body, and changes nothing else but the update stamp |
| OrderController.DeliverChangesOnlyDelivery | backend/controllers/orderController.js:114-118 | delivering sets only the flag and the time, apart from the update stamp |
| OrderController.DeliverWithoutPay | backend/controllers/orderController.js:111-124 | an unpaid order can be delivered and stays unpaid |
| OrderController.RepeatPayOverwrites | backend/controllers/orderController.js:86-99 | paying twice leaves only the second payment |
| OrderController.MarkPaid | backend/controllers/orderController.js:86-99 | sets the paid flag, the payment time and the payment record's update time to the request time; identity, items and delivery state are kept |
| OrderController.MarkDelivered | backend/controllers/orderController.js:114-118 | sets the delivered flag and time; identity, items and the whole payment state are kept |
| OrderController.Pay | backend/controllers/orderController.js:83-105 | 404 and no change exactly when no order has the id, and no other error; otherwise success, with the first such order replaced by its paid version and the rest kept |
| OrderController.Deliver | backend/controllers/orderController.js:111-124 | 404 and no change exactly when no order has the id, and no other error; otherwise success, with the first such order replaced by its delivered version and the rest kept |
| OrderController.TransitionsKeepValid | backend/controllers/orderController.js:83-124 | pay and deliver keep each flag paired with its time |
| OrderController.StepGrows | backend/controllers/orderController.js:8-124 | one create, pay or deliver request removes no order and resets no flag |
| OrderController.FlagsNeverReset | backend/controllers/orderController.js:83-124 | any sequence of requests keeps every order and never sets a paid or delivered flag back to false |
| OrderController.StepKeepsValid | backend/controllers/orderController.js:8-124 | every request keeps the table invariant: distinct ids, valid orders, non-empty item lists |
| OrderController.PayKeepsValid | backend/controllers/orderController.js:83-105 | paying keeps the table invariant |
| OrderController.DeliverKeepsValid | backend/controllers/orderController.js:111-124 | delivering keeps the table invariant |
| OrderController.OrderStore.AddOrderItems | backend/controllers/orderController.js:8-39 | the result is the creation's, and the table is the creation step's; invariant kept |
| OrderController.OrderStore.GetOrderById | backend/controllers/orderController.js:44-59 | answers with the read-one outcome over the current table |
| OrderController.OrderStore.GetMyOrders | backend/controllers/orderController.js:64-68 | answers with the caller's orders, newest first |
| OrderController.OrderStore.GetOrders | backend/controllers/orderController.js:74-78 | answers with every order and its owner's name |
| OrderController.OrderStore.UpdateOrderToPaid | backend/controllers/orderController.js:83-105 | 404 exactly when the id is unknown; the new table is the pay step's; invariant kept |
| OrderController.OrderStore.UpdateOrderToDelivered | backend/controllers/orderController.js:111-124 | 404 exactly when the id is unknown; the new table is the deliver step's; invariant kept |
| Upload.FileTypeAllowed | backend/routes/uploadRoutes.js:25-35 | with no empty alternative, a part without a MIME type or without an extension is refused |
| Upload.ReceiveSingle | backend/routes/uploadRoutes.js:38-47 | no parts is no file; one `image` part passing the filter is the file; a refused first `image` part is the filter's error; a first part under another field is "Unexpected field" for that field; a second part after an accepted `image` part is "Unexpected field" for the second part's field |
| Upload.StoredFilename | middleware/uploadMiddleware.js:12-17 | the stored name starts with the field name and a dash and ends with the original extension |
| Upload.StoredPath | middleware/uploadMiddleware.js:8-11 | the stored path is `uploads`, the platform's separator, and the filename |
| Upload.StoredFilenameRoundTrip | middleware/uploadMiddleware.js:12-17 | the field name, timestamp and extension can be read back from the stored filename |
| Upload.StoredFilenameHasNoSeparator | middleware/uploadMiddleware.js:7-19 | when the original extension has no backslash, a stored `image` filename holds neither a slash nor a backslash |
| UploadMiddleware.CheckFileType | middleware/uploadMiddleware.js:22-32 | a part without a MIME type or without an extension never passes |
| UploadMiddleware.Receive | middleware/uploadMiddleware.js:34-39 | a file that comes through is one of the parts and passes the filter; every error is "Images only!" or "Unexpected field" |
| UploadMiddleware.MatchesFileTypes | middleware/uploadMiddleware.js:23 | the alternation matches exactly when jpg, jpeg, png, webp or avif occurs |
| UploadMiddleware.StoredName | middleware/uploadMiddleware.js:7-19 | the stored name is `image-`, the timestamp and the original extension, under `uploads/` |
| UploadMiddleware.SinglePartOutcome | middleware/uploadMiddleware.js:22-32 | a single `image` part is accepted exactly when both the lower-cased extension and the MIME type match, otherwise "Images only!" |
| UploadMiddleware.GifRejected | middleware/uploadMiddleware.js:23 | `.gif` declared `image/gif` is refused |
| UploadMiddleware.UpperCaseMimeTypeRejected | middleware/uploadMiddleware.js:24-25 | `.JPG` passes the extension test but `image/JPEG` fails the MIME test |
| UploadMiddleware.UnanchoredExtension | middleware/uploadMiddleware.js:23-24 | `.pngx` declared `image/png` is accepted |
| UploadMiddleware.TextFileRejected | middleware/uploadMiddleware.js:27-31 | `.txt` declared `text/plain` is refused with "Images only!" |
| LegacyUpload.Post | backend/routes/uploadRoutes.js:47-57 | a parser error is passed on; no file is 400 "File upload failed."; a file that comes through always gets 200, and 200 carries "/" and the stored path of the one accepted file |
| LegacyUpload.CheckFileType | backend/routes/uploadRoutes.js:25-35 | a part without a MIME type or without an extension never passes |
| LegacyUpload.Receive | backend/routes/uploadRoutes.js:38-47 | a file that comes through is one of the parts and passes the filter; every error is the filter's message or "Unexpected field" |
| LegacyUpload.MatchesFileTypes | backend/routes/uploadRoutes.js:26 | `jpe?g\|png\|gif\|webp` matches exactly when jpg, jpeg, png, gif or webp occurs |
| LegacyUpload.SameAlternativesAwayFromGifAndAvif | backend/routes/uploadRoutes.js:26 | on text mentioning neither gif nor avif, the two alternations agree |
| LegacyUpload.FiltersAgreeAwayFromGifAndAvif | backend/routes/uploadRoutes.js:25-35 | the two filters accept the same files unless gif or avif is involved |
| LegacyUpload.SinglePartOutcome | backend/routes/uploadRoutes.js:25-35 | a single `image` part is accepted exactly when both tests pass, otherwise the "Images only! (JPEG, PNG, GIF, WebP)" error |
| LegacyUpload.GifAccepted | backend/routes/uploadRoutes.js:26 | `.gif` declared `image/gif` is accepted here and refused by the middleware |
| LegacyUpload.AvifRejected | backend/routes/uploadRoutes.js:26-33 | `.avif` declared `image/avif` is refused here and accepted by the middleware |
| LegacyUpload.OnlyImageField | backend/routes/uploadRoutes.js:47 | a file under any other field name aborts with "Unexpected field" |
| LegacyUpload.SuccessBodyOnPosix | backend/routes/uploadRoutes.js:49-53 | on POSIX an accepted file answers 200 with `/uploads/` and the stored filename |
| UploadRoute.ImagePath | routes/uploadRoutes.js:12-15 | the URL starts with `/` and holds no backslash; when the piece after the first `uploads/` of the slashed path, up to the next one, is non-empty, it is `/uploads/` and that piece; otherwise (no marker, or nothing after it) it is `/` and the slashed path |
| UploadRoute.Post | routes/uploadRoutes.js:10-20 | a middleware error is passed on; no file is 400 "No image file provided"; a file that comes through always gets 200, and 200 carries the image URL of the one accepted file |
| UploadRoute.NormalisesStoredPath | routes/uploadRoutes.js:12-15 | on either platform a stored filename free of separators comes back as `/uploads/` and that filename |
| UploadRoute.WindowsExample | routes/uploadRoutes.js:12-15 | `uploads\image-1.jpg` becomes `/uploads/image-1.jpg` |
| UploadRoute.AcceptedUploadUrl | routes/uploadRoutes.js:10-16 | an accepted upload answers 200 with `/uploads/` and the stored filename, whatever the platform |
| Routing.Dispatch | routes/productRoutes.js:16-27 | the request is taken by the first entry whose method and pattern match, and by none when no entry matches |
| Routing.DispatchAt | routes/productRoutes.js:18 | an entry that matches after no earlier one does takes the request |
| Routing.FirstDenial | routes/productRoutes.js:21 | the guards run in order, and the first that fails answers |
| Routing.ProtectThenAdmin | routes/productRoutes.js:26 | `protect, admin`: unauthenticated, then not admin, then through |
| Routing.Handle | routes/productRoutes.js:16-27 | no route exactly when nothing matches; otherwise the first failing guard's denial of the matched entry, or its handler exactly when all its guards pass |
| Routing.AnonymousIsUnauthenticated | routes/productRoutes.js:26-27 | where admin always follows protect, an anonymous request is refused as unauthenticated |
| ProductRoutes.AdminAlwaysAfterProtect | routes/productRoutes.js:21-27 | no entry uses admin without protect before it |
| ProductRoutes.TopIsNotAnId | routes/productRoutes.js:18-25 | GET `/top` reaches the top-products handler, for anyone |
| ProductRoutes.GetByIdIsPublic | routes/productRoutes.js:24-25 | any other single piece reaches the lookup by id, with no guard |
| ProductRoutes.ListIsPublic | routes/productRoutes.js:21 | GET `/` is public |
| ProductRoutes.ReviewNeedsProtectOnly | routes/productRoutes.js:16 | POST `/:id/reviews` needs a signed-in caller, not an admin |
| ProductRoutes.WritesNeedAdmin | routes/productRoutes.js:21-27 | create, update and delete need protect and then admin |
| OrderRoutes.AdminAlwaysAfterProtect | routes/orderRoutes.js:17-34 | no entry uses admin without protect before it |
| OrderRoutes.MyOrdersIsNotAnId | routes/orderRoutes.js:17-21 | GET `/myorders` reaches the caller's orders, not the lookup by id |
| OrderRoutes.GetByIdNeedsProtect | routes/orderRoutes.js:21 | GET `/:id` needs a signed-in caller |
| OrderRoutes.CreateTakenByFirstRegistration | routes/orderRoutes.js:19-25 | POST `/` needs protect only and is taken by the first registration; the second never takes a request |
| OrderRoutes.ListNeedsAdmin | routes/orderRoutes.js:25 | GET `/` needs protect and admin |
| OrderRoutes.PayPalConfigReached | routes/orderRoutes.js:21-28 | GET `/config/paypal` is not taken by `/:id` and needs protect |
| OrderRoutes.DeliverNeedsAdminPayDoesNot | routes/orderRoutes.js:31-34 | deliver needs protect and admin; pay needs protect only |
| LegacyOrderRoutes.AdminAlwaysAfterProtect | backend/routes/orderRoutes.js:16-30 | no entry uses admin without protect before it |
| LegacyOrderRoutes.MyOrdersIsNotAnId | backend/routes/orderRoutes.js:16-20 | GET `/myorders` reaches the caller's orders |
| LegacyOrderRoutes.CreateNeedsProtectOnly | backend/routes/orderRoutes.js:18 | POST `/` needs protect only |
| LegacyOrderRoutes.ListNeedsAdmin | backend/routes/orderRoutes.js:25 | GET `/` needs protect and admin |
| LegacyOrderRoutes.DeliverNeedsAdminPayDoesNot | backend/routes/orderRoutes.js:27-30 | deliver needs protect and admin; pay needs protect only |
| LegacyOrderRoutes.NoPayPalConfig | backend/routes/orderRoutes.js:14-30 | no entry matches GET `/config/paypal` |
| Cors.AllowedOrigins | server.js:23-29 | the allow-list holds exactly the configured front-end URL and the two development servers |
| Cors.CheckOrigin | server.js:33-45 | allowed exactly when there is no origin, or it equals one of the two development servers or the configured front-end URL; otherwise "Not allowed by CORS" |
| Cors.DevelopmentOriginsAllowed | server.js:27-28 | the two development servers pass whatever the configuration |
| Cors.NearMissesRejected | server.js:38-44 | a trailing slash or another port is refused unless it is the configured URL |
| Cors.UnsetFrontEnd | server.js:23-29 | with FRONTEND_URL unset, only origin-less requests and the two development servers pass |
| Text.ToLower | middleware/uploadMiddleware.js:24 | `toLowerCase` on ASCII: same length, each letter lowered |
| Text.Contains | middleware/uploadMiddleware.js:23-25 | an unanchored literal pattern matches exactly when it occurs somewhere |
| Text.ExtName | middleware/uploadMiddleware.js:24 | `path.extname`: the suffix of the last component from its last dot; empty when there is no dot, the only dot leads, or the component is `..` |
| Text.DecimalRoundTrip | middleware/uploadMiddleware.js:16 | the rendered timestamp reads back as the same number |
| Text.IndexOf | routes/uploadRoutes.js:15 | the first occurrence of the marker, or none when it never occurs |
| Text.SecondPiece | routes/uploadRoutes.js:15 | `split(sep)[1]`: none when sep never occurs; otherwise the text after the first sep up to the first later start of sep (overlapping ones included) or the end |
| Text.ReplaceChar | routes/uploadRoutes.js:12 | `replace(/\\/g, '/')`: same length, every backslash replaced and nothing else |
| Seqs.Filter | backend/controllers/orderController.js:66 | keeps exactly the elements that pass, with their multiplicities |
| Seqs.SortDesc | backend/controllers/orderController.js:66 | a permutation of the input in non-increasing key order |
| Seqs.Window | controllers/productController.js:36-37 | `skip(from).limit(size)`: at most size elements, from index from on |
| Seqs.IndexOf | controllers/productController.js:46 | the first record with that id, or none exactly when no record has it |
| Seqs.RemoveAtKey | controllers/productController.js:116 | removing the record at i keeps ids distinct and removes exactly the records with that id |
| Seqs.PrefixOfSortedIsTop | controllers/productController.js:11-12 | in a descending sort, anything after the first k ranks no higher than the k-th |

## Left out

- Database engine: mongoose queries, `save`, `populate` and `deleteOne` are modelled as sequences of records with a counter standing in for generated ids. Populate is a `map` from user ids to owner records.
- Clock: `Date.now()` is a `now` parameter, one instant per request. `paidAt`, `update_time` and `updatedAt` of one request therefore coincide.
- Catalog.Matching: the `$text` search lives in the database, so it is a `textMatch` parameter; only its absence, and the selection being drawn from the table, are stated.
- Catalog.PageNumber: `Number()` coercion of arbitrary query strings (fractions, non-numeric text) is not modelled. The query value is a whole number, and `None` stands for an absent or non-numeric value.
- Catalog.ProductPage: a page below 1 gives a negative skip. This is modelled as a server error, and its exact text is the store's and is not modelled.
- Catalog.TopProducts: which of several equally rated products the database returns first is not fixed.
- OrderController.MyOrders: the same holds for orders created at the same instant.
- Review ratings are whole numbers and the mean is a real. Floating-point rounding of the JavaScript division is not modelled.
- The root `models/productModel.js`, `models/orderModel.js` and `middleware/authMiddleware.js` are not part of this model. The root product carries the fields the root controller reads and writes, its reviews and its owner, with no schema validation or timestamps. Purchases are checked against the backend order shape.
- protect and admin are the caller record: present, and flagged admin. Their denial texts and the error middleware's status codes are not modelled.
- getPayPalClientId, userRoutes and the health-check route are not part of this model. Only their route entries appear.
- Routing: trailing slashes, case-insensitive matching, HEAD requests and URL decoding are not modelled. Paths arrive already split into pieces.
- JSON `null` is not distinguished from an absent field. Both are `None`.
- Text.ToLower: only ASCII letters are lowered.
- Text.ExtName: Node drops a trailing `/` before taking the extension; the model does not, since the names it takes are upload file names without a directory part.
- Uploads: writing the file to disk and multer's limits are not modelled. The file part is described by its field name, original name and MIME type.
- ProductModel.NewProduct and OrderModel.NewOrder: the detailed validation message, with each failing path, is reduced to one fixed message.
- Concurrency: two review submissions racing on the same product are not modelled. Each request is one atomic step.
- backend/data/products.js (seed data) and the connection and bootstrap code are not part of this model.
