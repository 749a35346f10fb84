/** The product catalog as the controllers in controllers/productController.js
    see it: an in-memory sequence of product records in the collection's
    natural order, keyed by id, with the decisions each controller takes
    stated as functions over that sequence. */
module Products {
  import opened Common
  import opened Text
  import opened Seqs
  import opened Domain

  datatype Review = Review(name: string, rating: int, comment: string, user: UserId)

  /** `owner` is the schema's `user` field: who created the product. */
  datatype Product = Product(
    id: ProductId,
    owner: UserId,
    name: string,
    price: real,
    image: string,
    brand: string,
    category: string,
    countInStock: int,
    numReviews: nat,
    rating: real,
    description: string,
    reviews: seq<Review>)

  /** The seven fields a create or update request body may carry; `None`
      is a field the body leaves out. */
  datatype ProductFields = ProductFields(
    name: Option<string>,
    price: Option<real>,
    description: Option<string>,
    image: Option<string>,
    brand: Option<string>,
    category: Option<string>,
    countInStock: Option<int>)

  /** The domain errors the controllers answer with. */
  datatype ApiError = ProductNotFound | AlreadyReviewed | NotPurchased

  function StatusOf(e: ApiError): int {
    match e
    case ProductNotFound => 404
    case AlreadyReviewed => 400
    case NotPurchased => 400
  }

  function MessageOf(e: ApiError): string {
    match e
    case ProductNotFound => "Product not found"
    case AlreadyReviewed => "Product already reviewed"
    case NotPurchased => "You can only review products you have purchased"
  }

  // ---------------------------------------------------------------------
  // Store-wide predicates

  predicate HasId(store: seq<Product>, id: ProductId) {
    exists i :: 0 <= i < |store| && store[i].id == id
  }

  ghost predicate UniqueIds(store: seq<Product>) {
    forall i, j :: 0 <= i < j < |store| ==> store[i].id != store[j].id
  }

  /** `Product.findById`: the position of the product with that id. */
  function FindIndex(store: seq<Product>, id: ProductId): (r: Option<nat>)
    ensures r.None? <==> !HasId(store, id)
    ensures r.Some? ==> r.value < |store| && store[r.value].id == id
    ensures r.Some? ==> forall j :: 0 <= j < r.value ==> store[j].id != id
  {
    if store == [] then None
    else if store[0].id == id then Some(0)
    else
      match FindIndex(store[1..], id)
      case None =>
        assert forall i :: 1 <= i < |store| ==> store[i] == store[1..][i - 1];
        None
      case Some(i) => Some(i + 1)
  }

  /** getProductById: the product with that id, or not-found. */
  function GetProductById(store: seq<Product>, id: ProductId): (r: Result<Product, ApiError>)
    ensures r.Ok? <==> HasId(store, id)
    ensures r.Ok? ==> r.value in store && r.value.id == id
    ensures r.Err? ==> r.error == ProductNotFound
  {
    match FindIndex(store, id)
    case None => Err(ProductNotFound)
    case Some(i) => Ok(store[i])
  }

  // ---------------------------------------------------------------------
  // getProducts

  /** The keyword query matches a product when its name contains the
      keyword, ignoring case. */
  predicate NameMatches(p: Product, keyword: string) {
    ContainsIgnoreCase(p.name, keyword)
  }

  /** getProducts: every product when the keyword is absent or empty,
      otherwise exactly the products whose name contains the keyword
      (ignoring case), in store order. */
  function ListProducts(store: seq<Product>, keyword: Option<string>): (r: seq<Product>)
    ensures !TruthyStr(keyword) ==> r == store
    ensures TruthyStr(keyword) ==> IsSubsequence(r, store)
    ensures TruthyStr(keyword) ==>
      forall p :: p in r ==> p in store && Occurs(Lower(p.name), Lower(keyword.value))
    ensures TruthyStr(keyword) ==>
      forall p :: p in store && Occurs(Lower(p.name), Lower(keyword.value)) ==> p in r
  {
    if TruthyStr(keyword) then Filter(store, p => NameMatches(p, keyword.value)) else store
  }

  /** Lower-casing both sides keeps an occurrence. */
  lemma OccursLower(s: string, k: string)
    requires Occurs(s, k)
    ensures Occurs(Lower(s), Lower(k))
  {
    var i :| OccursAt(s, k, i);
    assert Lower(s)[i..i + |k|] == Lower(k) by {
      forall j | 0 <= j < |k| ensures Lower(s)[i + j] == Lower(k)[j] {
        assert s[i + j] == s[i..i + |k|][j];
      }
    }
    assert OccursAt(Lower(s), Lower(k), i);
  }

  /** A non-empty keyword that occurs verbatim in a product's name finds
      that product. */
  lemma KeywordFindsExactName(store: seq<Product>, p: Product, k: string)
    requires p in store && k != [] && Occurs(p.name, k)
    ensures p in ListProducts(store, Some(k))
  {
    OccursLower(p.name, k);
  }

  // ---------------------------------------------------------------------
  // getRelatedProducts

  const RelatedLimit: nat := 4

  /** getRelatedProducts: up to four other products of the same category,
      in store order; not-found when the id is unknown. When fewer than
      four come back, every candidate came back. */
  function RelatedProducts(store: seq<Product>, id: ProductId): (r: Result<seq<Product>, ApiError>)
    ensures r.Err? <==> !HasId(store, id)
    ensures r.Err? ==> r.error == ProductNotFound
    ensures r.Ok? ==> |r.value| <= RelatedLimit && IsSubsequence(r.value, store)
    ensures r.Ok? ==>
      var p := store[FindIndex(store, id).value];
      forall q :: q in r.value ==> q in store && q.id != id && q.category == p.category
    ensures r.Ok? && |r.value| < RelatedLimit ==>
      var p := store[FindIndex(store, id).value];
      forall q :: q in store && q.id != id && q.category == p.category ==> q in r.value
  {
    match FindIndex(store, id)
    case None => Err(ProductNotFound)
    case Some(i) =>
      var p := store[i];
      var candidates := Filter(store, (q: Product) => q.id != p.id && q.category == p.category);
      if |candidates| <= RelatedLimit then Ok(candidates)
      else
        SubsequencePrefix(candidates, store, RelatedLimit);
        Ok(candidates[..RelatedLimit])
  }

  // ---------------------------------------------------------------------
  // createProduct

  const SampleName := "Sample name"
  const SampleImage := "/images/sample.jpg"
  const SampleBrand := "Sample brand"
  const SampleCategory := "Sample category"
  const SampleDescription := "Sample description"

  /** The record createProduct saves: each falsy field replaced by its
      sample default, no reviews, owned by the requesting user. The
      schema defaults for `rating` and `reviews` (models/Product.js is not
      part of this model) are taken as 0 and empty. */
  function NewProduct(id: ProductId, owner: UserId, f: ProductFields): (p: Product)
    ensures p.id == id && p.owner == owner
    ensures p.reviews == [] && p.numReviews == 0 && p.rating == 0.0
    ensures WellFormed(p)
  {
    Product(
      id := id,
      owner := owner,
      name := OrString(f.name, SampleName),
      price := OrReal(f.price, 0.0),
      image := OrString(f.image, SampleImage),
      brand := OrString(f.brand, SampleBrand),
      category := OrString(f.category, SampleCategory),
      countInStock := OrInt(f.countInStock, 0),
      numReviews := 0,
      rating := 0.0,
      description := OrString(f.description, SampleDescription),
      reviews := [])
  }

  /** A falsy field takes its default and a truthy one is kept as sent. */
  lemma CreateDefaults(id: ProductId, owner: UserId, f: ProductFields)
    ensures var p := NewProduct(id, owner, f);
      && p.name == (if TruthyStr(f.name) then f.name.value else "Sample name")
      && p.price == (if TruthyReal(f.price) then f.price.value else 0.0)
      && p.image == (if TruthyStr(f.image) then f.image.value else "/images/sample.jpg")
      && p.brand == (if TruthyStr(f.brand) then f.brand.value else "Sample brand")
      && p.category == (if TruthyStr(f.category) then f.category.value else "Sample category")
      && p.countInStock == (if TruthyInt(f.countInStock) then f.countInStock.value else 0)
      && p.description == (if TruthyStr(f.description) then f.description.value else "Sample description")
  {
  }

  /** A product created under a fresh id is what a lookup of that id
      then returns. */
  lemma CreatedIsFound(store: seq<Product>, id: ProductId, owner: UserId, f: ProductFields)
    requires !HasId(store, id)
    ensures GetProductById(store + [NewProduct(id, owner, f)], id) == Ok(NewProduct(id, owner, f))
  {
    var s := store + [NewProduct(id, owner, f)];
    assert s[|store|].id == id;
    assert forall j :: 0 <= j < |store| ==> s[j] == store[j];
  }

  // ---------------------------------------------------------------------
  // updateProduct

  /** updateProduct's field assignments: each of the seven fields takes
      the new value only when that value is truthy; reviews, their count,
      the rating and the owner are never touched. */
  function ApplyUpdate(p: Product, f: ProductFields): (q: Product)
    ensures q.id == p.id && q.owner == p.owner
    ensures q.reviews == p.reviews && q.numReviews == p.numReviews && q.rating == p.rating
    ensures WellFormed(p) ==> WellFormed(q)
  {
    p.(
      name := OrString(f.name, p.name),
      price := OrReal(f.price, p.price),
      description := OrString(f.description, p.description),
      image := OrString(f.image, p.image),
      brand := OrString(f.brand, p.brand),
      category := OrString(f.category, p.category),
      countInStock := OrInt(f.countInStock, p.countInStock))
  }

  /** A falsy value (absent, 0 or "") keeps the old value; a truthy one
      replaces it. */
  lemma UpdateTruthyOverride(p: Product, f: ProductFields)
    ensures var q := ApplyUpdate(p, f);
      && (q.name == p.name <== !TruthyStr(f.name))
      && (TruthyStr(f.name) ==> q.name == f.name.value)
      && (q.price == p.price <== !TruthyReal(f.price))
      && (TruthyReal(f.price) ==> q.price == f.price.value)
      && (q.description == p.description <== !TruthyStr(f.description))
      && (TruthyStr(f.description) ==> q.description == f.description.value)
      && (q.image == p.image <== !TruthyStr(f.image))
      && (TruthyStr(f.image) ==> q.image == f.image.value)
      && (q.brand == p.brand <== !TruthyStr(f.brand))
      && (TruthyStr(f.brand) ==> q.brand == f.brand.value)
      && (q.category == p.category <== !TruthyStr(f.category))
      && (TruthyStr(f.category) ==> q.category == f.category.value)
      && (q.countInStock == p.countInStock <== !TruthyInt(f.countInStock))
      && (TruthyInt(f.countInStock) ==> q.countInStock == f.countInStock.value)
  {
  }

  /** Sending the same update twice is the same as sending it once. */
  lemma UpdateIdempotent(p: Product, f: ProductFields)
    ensures ApplyUpdate(ApplyUpdate(p, f), f) == ApplyUpdate(p, f)
  {
  }

  /** createProduct is updateProduct applied to the all-defaults product. */
  lemma CreateIsUpdateOfSample(id: ProductId, owner: UserId, f: ProductFields)
    ensures NewProduct(id, owner, f)
      == ApplyUpdate(NewProduct(id, owner, ProductFields(None, None, None, None, None, None, None)), f)
  {
  }

  /** The store after updateProduct: the product with that id updated,
      every other product as it was. */
  function UpdateStore(store: seq<Product>, id: ProductId, f: ProductFields): (r: seq<Product>)
    ensures |r| == |store|
    ensures forall i :: 0 <= i < |store| ==> r[i].id == store[i].id
    ensures forall i :: 0 <= i < |store| && store[i].id != id ==> r[i] == store[i]
    ensures forall i :: 0 <= i < |store| && store[i].id == id ==> r[i] == ApplyUpdate(store[i], f)
  {
    seq(|store|, i requires 0 <= i < |store| =>
      if store[i].id == id then ApplyUpdate(store[i], f) else store[i])
  }

  /** An update of an unknown id leaves the store as it was. */
  lemma UpdateUnknownId(store: seq<Product>, id: ProductId, f: ProductFields)
    requires !HasId(store, id)
    ensures UpdateStore(store, id, f) == store
  {
    assert forall i :: 0 <= i < |store| ==> store[i].id != id;
  }

  /** With unique ids, updating position `i` in place is UpdateStore. */
  lemma UpdateInPlace(store: seq<Product>, i: nat, f: ProductFields)
    requires UniqueIds(store) && i < |store|
    ensures store[i := ApplyUpdate(store[i], f)] == UpdateStore(store, store[i].id, f)
  {
  }

  // ---------------------------------------------------------------------
  // deleteProduct

  /** The store after deleteProduct: every product but the one with that
      id, in the same order. */
  function RemoveProduct(store: seq<Product>, id: ProductId): (r: seq<Product>)
    ensures IsSubsequence(r, store)
    ensures forall q :: q in r ==> q in store && q.id != id
    ensures forall q :: q in store && q.id != id ==> q in r
  {
    Filter(store, (q: Product) => q.id != id)
  }

  /** After a delete, a lookup of that id is not-found. */
  lemma DeletedIsGone(store: seq<Product>, id: ProductId)
    ensures GetProductById(RemoveProduct(store, id), id) == Err(ProductNotFound)
  {
    var r := RemoveProduct(store, id);
    assert forall i :: 0 <= i < |r| ==> r[i] in r;
  }

  /** Deleting an unknown id leaves the store as it was. */
  lemma RemoveUnknownId(store: seq<Product>, id: ProductId)
    requires !HasId(store, id)
    ensures RemoveProduct(store, id) == store
  {
    FilterAll(store, (q: Product) => q.id != id);
  }

  /** One step of the delete filter: the head stays exactly when its id
      differs. */
  lemma RemoveCons(store: seq<Product>, id: ProductId)
    requires store != []
    ensures RemoveProduct(store, id)
      == (if store[0].id != id then [store[0]] else []) + RemoveProduct(store[1..], id)
  {
  }

  /** With unique ids, deleting the product at position `i` is cutting it
      out of the sequence, so exactly one product goes. */
  lemma {:induction false} RemoveAt(store: seq<Product>, i: nat)
    requires UniqueIds(store) && i < |store|
    ensures RemoveProduct(store, store[i].id) == store[..i] + store[i + 1..]
    ensures |RemoveProduct(store, store[i].id)| == |store| - 1
  {
    var id := store[i].id;
    var tail := store[1..];
    RemoveCons(store, id);
    UniqueTail(store);
    if i == 0 {
      assert !HasId(tail, id);
      RemoveUnknownId(tail, id);
    } else {
      RemoveAt(tail, i - 1);
      CutAfterHead(store, i);
    }
  }

  /** Dropping the head keeps ids unique, and the head's id is absent
      from the rest. */
  lemma UniqueTail(store: seq<Product>)
    requires UniqueIds(store) && store != []
    ensures UniqueIds(store[1..]) && !HasId(store[1..], store[0].id)
  {
    var tail := store[1..];
    assert forall k :: 0 <= k < |tail| ==> tail[k] == store[k + 1];
  }

  /** Cutting position `i > 0` is keeping the head and cutting `i - 1`
      from the rest. */
  lemma CutAfterHead(store: seq<Product>, i: nat)
    requires 0 < i < |store|
    ensures store[..i] + store[i + 1..] == [store[0]] + (store[1..][..i - 1] + store[1..][i..])
  {
    var tail := store[1..];
    assert store[..i] == [store[0]] + tail[..i - 1];
    assert store[i + 1..] == tail[i..];
  }

  /** Cutting position `i` out of a store keeps its ids unique and keeps
      every remaining product's properties: each survivor is a product of
      the original store. */
  lemma CutKeepsProducts(store: seq<Product>, i: nat)
    requires i < |store|
    ensures var r := store[..i] + store[i + 1..];
      && |r| == |store| - 1
      && (forall k :: 0 <= k < |r| ==> r[k] == store[if k < i then k else k + 1])
      && (UniqueIds(store) ==> UniqueIds(r))
  {
    var r := store[..i] + store[i + 1..];
    assert forall k :: 0 <= k < |r| ==> r[k] == store[if k < i then k else k + 1];
  }

  // ---------------------------------------------------------------------
  // createProductReview

  /** At most one review per user. */
  ghost predicate OneReviewPerUser(reviews: seq<Review>) {
    forall i, j :: 0 <= i < j < |reviews| ==> reviews[i].user != reviews[j].user
  }

  function SumRatings(reviews: seq<Review>): int {
    if reviews == [] then 0 else reviews[0].rating + SumRatings(reviews[1..])
  }

  function MeanRating(reviews: seq<Review>): real
    requires |reviews| > 0
  {
    SumRatings(reviews) as real / |reviews| as real
  }

  /** The derived fields agree with the reviews, and no user has
      reviewed twice. */
  ghost predicate WellFormed(p: Product) {
    && p.numReviews == |p.reviews|
    && p.rating == (if p.reviews == [] then 0.0 else MeanRating(p.reviews))
    && OneReviewPerUser(p.reviews)
  }

  /** `reviews.find(r => r.user === user)`: the first review by that
      user, and none exactly when no review is by that user. */
  function FindReview(reviews: seq<Review>, user: UserId): (r: Option<Review>)
    ensures r.Some? ==> r.value in reviews && r.value.user == user
    ensures r.None? <==> forall x :: x in reviews ==> x.user != user
  {
    if reviews == [] then None
    else if reviews[0].user == user then Some(reviews[0])
    else
      var rest := FindReview(reviews[1..], user);
      assert forall x :: x in reviews ==> x == reviews[0] || x in reviews[1..];
      rest
  }

  /** The `alreadyReviewed` test: some review of the product is by that
      user. */
  predicate ReviewedBy(p: Product, user: UserId)
    ensures ReviewedBy(p, user) <==> exists x :: x in p.reviews && x.user == user
  {
    FindReview(p.reviews, user).Some?
  }

  /** `items.some(item => item.product === id)`. */
  function HasItem(items: seq<OrderItem>, id: ProductId): (b: bool)
    ensures b <==> exists item :: item in items && item.product == id
  {
    if items == [] then false
    else
      assert forall x :: x in items ==> x == items[0] || x in items[1..];
      items[0].product == id || HasItem(items[1..], id)
  }

  /** `Order.find({ user, isPaid: true })`: that user's paid orders, in
      collection order. */
  function PaidOrdersOf(orders: seq<Order>, user: UserId): (r: seq<Order>)
    ensures forall o :: o in r <==> o in orders && o.user == user && o.isPaid
  {
    Filter(orders, (o: Order) => o.user == user && o.isPaid)
  }

  /** `orders.some(order => HasItem(order.orderItems, id))`. */
  function SomeOrderHas(orders: seq<Order>, id: ProductId): (b: bool)
    ensures b <==> exists o :: o in orders && HasItem(o.orderItems, id)
  {
    if orders == [] then false
    else
      assert forall x :: x in orders ==> x == orders[0] || x in orders[1..];
      HasItem(orders[0].orderItems, id) || SomeOrderHas(orders[1..], id)
  }

  /** The `hasPurchased` test: a paid order of that user holds an item
      for that product. */
  predicate HasPurchased(orders: seq<Order>, user: UserId, id: ProductId)
    ensures HasPurchased(orders, user, id) <==>
      exists o :: o in orders && o.user == user && o.isPaid && HasItem(o.orderItems, id)
  {
    SomeOrderHas(PaidOrdersOf(orders, user), id)
  }

  /** The checks of createProductReview, in the order it makes them. */
  function ReviewVerdict(store: seq<Product>, id: ProductId, user: UserId, orders: seq<Order>): (r: Option<ApiError>)
    ensures !HasId(store, id) ==> r == Some(ProductNotFound)
    ensures HasId(store, id) ==>
      var p := store[FindIndex(store, id).value];
      && (ReviewedBy(p, user) ==> r == Some(AlreadyReviewed))
      && (!ReviewedBy(p, user) && !HasPurchased(orders, user, id) ==> r == Some(NotPurchased))
      && (!ReviewedBy(p, user) && HasPurchased(orders, user, id) ==> r == None)
  {
    match FindIndex(store, id)
    case None => Some(ProductNotFound)
    case Some(i) =>
      if ReviewedBy(store[i], user) then Some(AlreadyReviewed)
      else if !HasPurchased(orders, user, id) then Some(NotPurchased)
      else None
  }

  /** The product after a review is pushed and the count and mean are
      recomputed. */
  function WithReview(p: Product, review: Review): (q: Product)
    ensures q.reviews == p.reviews + [review]
    ensures q.numReviews == |q.reviews| >= 1
    ensures q.rating == SumRatings(q.reviews) as real / |q.reviews| as real
    ensures q.(reviews := p.reviews, numReviews := p.numReviews, rating := p.rating) == p
  {
    var reviews := p.reviews + [review];
    p.(reviews := reviews, numReviews := |reviews|, rating := MeanRating(reviews))
  }

  /** A review by a user who has not reviewed yet leaves one review per
      user, and the pushed product is well formed whatever counters it
      carried before: the count and the mean are rebuilt from the reviews
      alone. */
  lemma WithReviewWellFormed(p: Product, review: Review)
    requires OneReviewPerUser(p.reviews) && !ReviewedBy(p, review.user)
    ensures WellFormed(WithReview(p, review))
  {
    var rs := p.reviews + [review];
    forall i, j | 0 <= i < j < |rs| ensures rs[i].user != rs[j].user {
      if j == |rs| - 1 {
        assert rs[i] in p.reviews;
      }
    }
  }

  /** The first review of a product without reviews resets its counters:
      numReviews becomes 1 and rating becomes that review's rating, even
      when the stored counters said otherwise (a product stored with
      rating 4.8 from 24 reviews but an empty review list). */
  lemma FirstReviewResets(p: Product, review: Review)
    requires p.reviews == []
    ensures WithReview(p, review).numReviews == 1
    ensures WithReview(p, review).rating == review.rating as real
  {
    assert p.reviews + [review] == [review];
    assert [review][1..] == [];
    assert SumRatings([review]) == review.rating;
    assert MeanRating([review]) == review.rating as real / 1.0;
  }

  /** Once a user's review is pushed, a second review by the same user is
      rejected as already reviewed. */
  lemma ReviewOnlyOnce(store: seq<Product>, i: nat, review: Review, orders: seq<Order>)
    requires UniqueIds(store) && i < |store|
    ensures ReviewVerdict(store[i := WithReview(store[i], review)], store[i].id, review.user, orders)
      == Some(AlreadyReviewed)
  {
    var after := store[i := WithReview(store[i], review)];
    assert UniqueIds(after);
    assert review in after[i].reviews;
  }

  lemma {:induction false} SumRatingsBounds(reviews: seq<Review>, lo: int, hi: int)
    requires forall r :: r in reviews ==> lo <= r.rating <= hi
    ensures |reviews| * lo <= SumRatings(reviews) <= |reviews| * hi
  {
    if reviews != [] {
      var rest := reviews[1..];
      assert forall r :: r in rest ==> r in reviews;
      SumRatingsBounds(rest, lo, hi);
      AddOneBound(|rest|, lo, hi, reviews[0].rating, SumRatings(rest));
    }
  }

  /** One more term within `[lo, hi]` keeps a sum of `n` such terms
      between `n + 1` times each bound. */
  lemma AddOneBound(n: nat, lo: int, hi: int, x: int, s: int)
    requires lo <= x <= hi && n * lo <= s <= n * hi
    ensures (n + 1) * lo <= x + s <= (n + 1) * hi
  {
    assert (n + 1) * lo == n * lo + lo;
    assert (n + 1) * hi == n * hi + hi;
  }

  /** Dividing both sides of a bound by a positive count keeps the bound. */
  lemma DivideBounds(s: real, n: real, lo: real, hi: real)
    requires n > 0.0 && n * lo <= s <= n * hi
    ensures lo <= s / n <= hi
  {
    var m := s / n;
    assert s == m * n;
  }

  /** The mean rating lies between the lowest and highest allowed rating. */
  lemma MeanRatingInRange(reviews: seq<Review>, lo: int, hi: int)
    requires |reviews| > 0
    requires forall r :: r in reviews ==> lo <= r.rating <= hi
    ensures lo as real <= MeanRating(reviews) <= hi as real
  {
    SumRatingsBounds(reviews, lo, hi);
    DivideBounds(SumRatings(reviews) as real, |reviews| as real, lo as real, hi as real);
  }

  /** Ratings 4 and 5 give a mean of exactly 4.5. */
  lemma MeanOfFourAndFive(a: Review, b: Review)
    requires a.rating == 4 && b.rating == 5
    ensures MeanRating([a, b]) == 4.5
  {
    assert [a, b][1..] == [b];
    assert SumRatings([b]) == 5;
    assert SumRatings([a, b]) == 9;
  }
}
