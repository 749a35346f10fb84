# Storefront backend core, modelled in Dafny

This project models three parts of a Node/Express storefront backend and
proves properties of the model:

- **Product catalog controllers** (`controllers/productController.js`):
  the keyword listing, lookup by id, related products, create, update
  with "truthy override", delete, and the purchase-gated, one-per-user
  review that recomputes `numReviews` and the mean `rating`.
- **Dashboard summary** (`controllers/dashboardController.js`): total paid
  sales, active and total order counts, the three-way order-status
  counters, the seven-day sales series with zero fill, and the five most
  recent orders.
- **Request gate** (`middleware/authMiddleware.js`): token extraction
  (cookie first, then a `Bearer` header), the three 401 answers of
  `protect`, and the role check of `authorize`.

The product collection is a sequence of records in the collection's
natural order, keyed by id. The stateful controllers are methods of the
class `ProductController.ProductStore`. That class owns the sequence and
an id counter, which stands in for ObjectId generation. Its invariant
`Valid()` says three things:

- ids are unique;
- every id is below the counter;
- no user has reviewed a product twice.

The stored counters `numReviews` and `rating` are not part of the
invariant. Products can be stored with counters that disagree with their
review list: the seed data has a rating of 4.8 from 24 reviews and an
empty list. The controllers leave those counters alone, except that a
new review rebuilds both from the review list (`FirstReviewResets`).
After a successful review the product is well formed (`WellFormed`): its
counters agree with its reviews.

Every method keeps `Valid()`. Each method is specified against a function
over the sequence: `UpdateStore`, `RemoveProduct`, `ReviewVerdict`,
`WithReview` or `NewProduct`. The lemmas about those functions state what
the controller promises.

The order collection is also a sequence. Each database pipeline of the
dashboard is replaced by a function that gives its meaning. Both loops of
the controller are methods with invariants: `CountStatuses` is the status
`forEach` and `FillSalesSeries` is the seven-day `for` loop.

Modules: `Common` (Option/Result, JavaScript truthiness and `||`), `Text`
(ASCII lower-casing, literal substring search, `split`/`join`), `Seqs`
(order-preserving selection), `Domain` (users and orders), `Products`,
`ProductController`, `Dashboard`, `Auth`.

### What the catalog code does not do

- There is no in-memory cache, so nothing is evicted on a mutation.
- `getProducts` applies a case-insensitive pattern to `name` only. There
  is no fuzzy matcher, so a keyword with a typo ("honney") finds nothing,
  and no search over brand, category or description.
- The listing has no category filter.
- In `createProductReview` the new review is pushed before the division,
  so the count is at least 1 and the mean never divides by zero
  (`WithReview`).

## Model

| member | source | states |
|---|---|---|
| `Text.Contains` | controllers/productController.js:11-14 | the literal search answers true exactly when the keyword occurs at some position of the string |
| `Text.ContainsIgnoreCase` | controllers/productController.js:11-14 | the `$regex` match with option `i` on a literal keyword: true exactly when the lower-cased keyword occurs in the lower-cased name |
| `Text.Split` | middleware/authMiddleware.js:14 | `split(" ")` gives at least one piece, no piece holds a space, and joining the pieces with spaces gives the header back |
| `Text.SplitJoin` | middleware/authMiddleware.js:14 | the other half of the round trip: splitting the join of space-free pieces gives the pieces back |
| `Seqs.Filter` | controllers/productController.js:18 | a `find` with a filter returns only records that satisfy it and every record that does, as a subsequence of the collection in its natural order |
| `Seqs.FilterCounts` | controllers/productController.js:18 | the selection keeps every copy of a record that satisfies the filter and no copy of one that does not |
| `Products.FindIndex` | controllers/productController.js:49 | `findById` finds the first position holding that id, and finds none exactly when no product has it |
| `Products.GetProductById` | controllers/productController.js:31-37 | the product with that id, or not-found exactly when no product has that id |
| `Products.ListProducts` | controllers/productController.js:9-18 | an absent or empty keyword lists every product; otherwise the listing is exactly the products whose name contains the keyword ignoring case, in store order |
| `Products.OccursLower` | controllers/productController.js:11-14 | an occurrence of the keyword stays an occurrence after lower-casing both sides |
| `Products.KeywordFindsExactName` | controllers/productController.js:9-18 | a non-empty keyword that occurs verbatim in a product's name lists that product |
| `Products.RelatedProducts` | controllers/productController.js:188-198 | not-found for an unknown id; otherwise at most 4 products, none with that id, all of its exact category, in store order; when fewer than 4 come back, every such product came back |
| `Products.NewProduct` | controllers/productController.js:70-80 | the created record has the given id, the requesting user as owner, no reviews, numReviews 0 and rating 0, so it is well formed |
| `Products.CreateDefaults` | controllers/productController.js:70-80 | each falsy field takes its default ("Sample name", 0, "/images/sample.jpg", "Sample brand", "Sample category", 0, "Sample description") and each truthy one is kept as sent |
| `Products.CreatedIsFound` | controllers/productController.js:70-83 | after a product is created under a fresh id, a lookup of that id returns it |
| `Products.CreateIsUpdateOfSample` | controllers/productController.js:70-80 | creating is the same as applying the request, with truthy-override semantics, to the all-defaults product |
| `Products.ApplyUpdate` | controllers/productController.js:107-114 | an update keeps the id, owner, reviews, numReviews and rating, so a well-formed product stays well formed |
| `Products.UpdateTruthyOverride` | controllers/productController.js:108-114 | each of the seven fields takes the new value when it is truthy, and keeps the old value when it is absent, 0 or "" |
| `Products.UpdateIdempotent` | controllers/productController.js:108-114 | sending the same update twice gives the same product as sending it once |
| `Products.UpdateStore` | controllers/productController.js:105-119 | after an update, the store has the same length and ids; the product with that id is updated and every other product is unchanged |
| `Products.UpdateUnknownId` | controllers/productController.js:118-119 | an update of an unknown id leaves the store unchanged |
| `Products.UpdateInPlace` | controllers/productController.js:107-116 | with unique ids, writing the updated record back at its position is the store-wide update |
| `Products.RemoveProduct` | controllers/productController.js:49-53 | after a delete, the store keeps exactly the products with other ids, in the same order |
| `Products.RemoveUnknownId` | controllers/productController.js:54-55 | deleting an unknown id leaves the store unchanged |
| `Products.RemoveAt` | controllers/productController.js:49-53 | with unique ids, a delete cuts out exactly the one product with that id, so the store shrinks by one |
| `Products.DeletedIsGone` | controllers/productController.js:49-56 | after a delete, a lookup of that id is not-found |
| `Products.ReviewVerdict` | controllers/productController.js:133-157 | the checks run in this order: unknown product gives 404; a review already by that user gives 400 "already reviewed", even after a purchase; no paid order of that user with that product gives 400; the review is accepted exactly when none of these applies |
| `Products.FindReview` | controllers/productController.js:136-138 | `reviews.find` by user gives a review of that user from the list, and gives none exactly when no review is by that user |
| `Products.ReviewedBy` | controllers/productController.js:136-140 | `alreadyReviewed` holds exactly when some review of the product is by that user |
| `Products.HasItem` | controllers/productController.js:149-151 | the inner `some` holds exactly when an item of the order is for that product |
| `Products.PaidOrdersOf` | controllers/productController.js:146 | `Order.find({ user, isPaid: true })` gives exactly the paid orders of that user |
| `Products.SomeOrderHas` | controllers/productController.js:148-152 | the outer `some` holds exactly when one of the orders has an item for that product |
| `Products.HasPurchased` | controllers/productController.js:146-152 | `hasPurchased` holds exactly when a paid order of that user has an item for that product |
| `Products.WithReview` | controllers/productController.js:159-170 | the review is appended last; numReviews is the new number of reviews, which is at least 1; rating is the sum of ratings divided by that number; no other field changes |
| `Products.WithReviewWellFormed` | controllers/productController.js:136-170 | a review by a user who had not reviewed leaves one review per user, and the product is well formed afterwards whatever counters it had before |
| `Products.FirstReviewResets` | controllers/productController.js:166-170 | the first review of a product with an empty review list sets numReviews to 1 and rating to that review's rating, whatever the stored counters were |
| `Products.ReviewOnlyOnce` | controllers/productController.js:136-143 | after a user's review is pushed, another review by that user for that product is rejected as already reviewed |
| `Products.SumRatingsBounds` | controllers/productController.js:168-170 | the sum of n ratings in [lo, hi] lies between n·lo and n·hi |
| `Products.MeanRatingInRange` | controllers/productController.js:168-170 | the recomputed rating lies between the lowest and highest rating given |
| `Products.MeanOfFourAndFive` | controllers/productController.js:168-170 | ratings 4 and 5 give a rating of exactly 4.5 |
| `ProductController.ProductStore.CreateProduct` | controllers/productController.js:66-83 | adds exactly one product under a fresh id, at the end of the store, built by `NewProduct`, and keeps the invariant, whatever counters the stored products carry |
| `ProductController.ProductStore.UpdateProduct` | controllers/productController.js:93-119 | not-found with the store unchanged for an unknown id; otherwise assigns the fields in place and returns the updated product. The new store is `UpdateStore` of the old one and the invariant holds |
| `ProductController.ProductStore.DeleteProduct` | controllers/productController.js:47-56 | not-found for an unknown id; otherwise "Product removed" and one product fewer. The new store is `RemoveProduct` of the old one |
| `ProductController.ProductStore.CreateProductReview` | controllers/productController.js:130-176 | the rejection is `ReviewVerdict` and any rejection leaves the store unchanged; on success only that product changes, to `WithReview` with the user's name, rating, comment and id; that product is then well formed and the invariant holds |
| `Dashboard.SalesAggregation` | controllers/dashboardController.js:11-14 | the paid-sales pipeline yields no group when no order is paid, otherwise exactly one group |
| `Dashboard.PaidSumNone` | controllers/dashboardController.js:15 | with no paid order, the paid sum is 0 |
| `Dashboard.TotalSales` | controllers/dashboardController.js:11-15 | totalSales is the sum of totalPrice over paid orders, and 0 when none is paid |
| `Dashboard.TotalSalesAppend` | controllers/dashboardController.js:11-15 | total sales of two batches of orders add up |
| `Dashboard.Undelivered` | controllers/dashboardController.js:18 | the `{ isDelivered: false }` filter keeps exactly the undelivered orders |
| `Dashboard.ActiveOrdersCount` | controllers/dashboardController.js:18 | activeOrders is the number of undelivered orders, at most the number of orders |
| `Dashboard.BucketOf` | controllers/dashboardController.js:77-83 | a group counts as Delivered exactly when delivered, whatever isPaid says; as Paid (Pending) exactly when paid and undelivered; as Unpaid exactly when neither |
| `Dashboard.GroupByStatusGroups` | controllers/dashboardController.js:60-70 | the status pipeline gives at most four groups with distinct (isPaid, isDelivered) keys, one for the key of every order, each holding the positive number of orders with that key |
| `Dashboard.CountStatuses` | controllers/dashboardController.js:72-84 | the three counters of the loop are the summed counts of the groups of each bucket |
| `Dashboard.BucketsByKey` | controllers/dashboardController.js:60-84 | each bucket's order count is the sum of the counts of its (isPaid, isDelivered) groups |
| `Dashboard.StatusGroupsCountBuckets` | controllers/dashboardController.js:60-84 | fed the status grouping of the orders, each counter counts exactly the orders of its bucket |
| `Dashboard.BucketTotalPermutation` | controllers/dashboardController.js:76-84 | the loop's counters do not depend on the order of the groups: any rearrangement gives the same totals |
| `Dashboard.GroupsInAnyOrderCountBuckets` | controllers/dashboardController.js:60-84 | whatever order the status groups come back in, each counter counts exactly its bucket's orders |
| `Dashboard.BucketsPartition` | controllers/dashboardController.js:76-84 | the three bucket counts sum to totalOrders, and Paid (Pending) plus Unpaid equals activeOrders (the counts of lines 18-19) |
| `Dashboard.SalesByDayDays` | controllers/dashboardController.js:28-42 | the daily-sales pipeline has a group for a day exactly when a paid order created in the window falls on that day |
| `Dashboard.SalesByDayMeaning` | controllers/dashboardController.js:28-42 | for every day inside the window, the grouped sales are that day's paid totalPrice sum, and 0 for a day without sales |
| `Dashboard.FillSalesSeries` | controllers/dashboardController.js:45-57 | exactly 7 entries, oldest first, ending today; each day gets its grouped sales, or 0 when that day has no group |
| `Dashboard.InsertNewest` | controllers/dashboardController.js:95 | inserting into a newest-first list keeps it newest-first and adds exactly that order |
| `Dashboard.SortNewestFirst` | controllers/dashboardController.js:95 | the sort by createdAt descending is newest-first and a permutation of the orders |
| `Dashboard.RecentOrders` | controllers/dashboardController.js:93-96 | min(5, number of orders) orders, newest first, drawn from the orders; no order left out is newer than one taken |
| `Dashboard.GetDashboardSummary` | controllers/dashboardController.js:9-110 | the summary's totalSales, activeOrders and totalOrders are as above. orderStatusData has exactly three entries in the order Delivered, Paid (Pending), Unpaid; they sum to totalOrders and the last two sum to activeOrders. salesData has seven days of paid sales ending today. recentOrders is `RecentOrders` |
| `Auth.SecondPiece` | middleware/authMiddleware.js:14 | `split(" ")[1]` is undefined exactly when the header holds no space; otherwise it holds no space itself |
| `Auth.ExtractToken` | middleware/authMiddleware.js:5-15 | a truthy cookie token wins over any header; with neither a truthy cookie nor a header starting with "Bearer" there is no token; a header token holds no space |
| `Auth.HeaderSecondPiece` | middleware/authMiddleware.js:9-15 | without a truthy cookie, any header whose first space-separated piece starts with "Bearer" and that has a second piece gives exactly that second piece ("Bearer a b" gives "a", "BearerX t" gives "t") |
| `Auth.BearerHeaderToken` | middleware/authMiddleware.js:9-15 | without a cookie, the header "Bearer t" gives exactly the token t when t holds no space |
| `Auth.BareBearerHasNoToken` | middleware/authMiddleware.js:9-18 | a bare "Bearer" header gives no token |
| `Auth.Protect` | middleware/authMiddleware.js:4-37 | no token gives 401 "no token"; a token that fails verification gives 401 "invalid token"; a verified id with no user gives 401 "user not found"; next is reached exactly when a user was found, and carries that user |
| `Auth.Authorize` | middleware/authMiddleware.js:39-49 | next exactly when the user's role is in the allowed list; otherwise 403 with a message that names the role |

## Left out

- MongoDB/Mongoose persistence (`find`, `findById`, `save`, `deleteOne`, `aggregate`, `countDocuments`) is replaced by sequences of records. The 500 "Server Error" branches are not modelled, because they come only from database failures and malformed ids.
- Each controller updates a loaded document object in place. The model updates a local copy of the record and writes it back at its position in the store. Aliasing of document objects is not modelled.
- `populate` and `select` are left out: the reviewer name and email on `getProductById`, the user on `recentOrders`, the recent-order projection, and the password exclusion on the user. They are output shaping with no logic.
- The `$regex` keyword is taken as a literal substring, so regular-expression metacharacters are not modelled. Case-insensitivity covers ASCII letters only; Unicode case folding is not modelled.
- `jwt.verify` and the secret are a function parameter from token to optional user id, and the user collection is a map. `Auth.Protect`: a database error inside `protect`'s `try` also answers "invalid token" in the code; the model has no database errors.
- Dates: `createdAt` is a millisecond timestamp, and a day is its UTC day number. `today` is an input. The window start is midnight UTC seven days before today. The code takes local midnight through `setDate`/`setHours`, and names days through `toISOString`; the difference between local time and UTC is not modelled. The `name` and `date` display strings of each sales entry are left out.
- Prices, totals and ratings are exact reals and integers. Floating-point rounding and `Number(rating)` giving NaN are not modelled. Request fields are typed, so casting of non-number JSON values by Mongoose is left out.
- The Product and Order schemas are not part of this model. A new product's `rating` and `reviews` are taken as 0 and empty.
- `totalCustomers` and `totalProducts` are document counts of other collections; they are parameters.
- The grouping pipelines give their groups in no particular order. The model fixes one; `CountStatuses` is proved for any list of groups, and `GroupsInAnyOrderCountBuckets` for any rearrangement of the status groups. Orders with equal `createdAt` may come back in any order; `RecentOrders` is stated for any such order.
- The Express plumbing is left out: response objects, the routes, `index.js`, `config/db.js` and the `admin` import in `routes/dashboardRoutes.js`, which the middleware does not export. The seed data in `data/products.js` is not loaded; the store invariant admits its products, whose counters disagree with their empty review lists. Async execution and concurrency are left out.
- There is no cache, fuzzy matcher or category filter in the code, so none is modelled.
