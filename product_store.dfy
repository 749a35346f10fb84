/** The mutating controllers of controllers/productController.js over a
    store object whose product sequence they change in place. The store
    hands out fresh ids from a counter, standing in for the database's
    ObjectIds. */
module ProductController {
  import opened Common
  import opened Domain
  import opened Products

  const ProductRemoved := "Product removed"
  const ReviewAdded := "Review added"

  class ProductStore {
    var products: seq<Product>
    var nextId: ProductId

    /** Ids are unique and below the counter, and no user has reviewed a
        product twice. The stored counters `numReviews` and `rating` are
        not tied to the reviews: products can be stored with any counters
        and the controllers never fix them except on a new review. */
    ghost predicate Valid()
      reads this
    {
      && UniqueIds(products)
      && (forall i :: 0 <= i < |products| ==> products[i].id < nextId)
      && (forall i :: 0 <= i < |products| ==> OneReviewPerUser(products[i].reviews))
    }

    constructor ()
      ensures Valid() && products == []
    {
      products := [];
      nextId := 0;
    }

    /** createProduct: saves one new product, with defaults for falsy
        fields, owned by the requesting user, at the end of the store. */
    method CreateProduct(user: User, fields: ProductFields) returns (created: Product)
      requires Valid()
      modifies this
      ensures Valid()
      ensures created == NewProduct(old(nextId), user.id, fields)
      ensures !HasId(old(products), created.id)
      ensures products == old(products) + [created]
    {
      created := NewProduct(nextId, user.id, fields);
      products := products + [created];
      nextId := nextId + 1;
    }

    /** updateProduct: not-found and no change for an unknown id;
        otherwise that product's fields are overridden by the truthy
        request fields and nothing else changes. */
    method UpdateProduct(id: ProductId, fields: ProductFields) returns (r: Result<Product, ApiError>)
      requires Valid()
      modifies this
      ensures Valid() && nextId == old(nextId)
      ensures r.Err? <==> !HasId(old(products), id)
      ensures r.Err? ==> r.error == ProductNotFound && products == old(products)
      ensures r.Ok? ==> r.value == ApplyUpdate(old(products)[FindIndex(old(products), id).value], fields)
      ensures products == UpdateStore(old(products), id, fields)
    {
      var found := FindIndex(products, id);
      if found.None? {
        UpdateUnknownId(products, id, fields);
        return Err(ProductNotFound);
      }
      var i := found.value;
      var product := products[i];
      product := product.(name := OrString(fields.name, product.name));
      product := product.(price := OrReal(fields.price, product.price));
      product := product.(description := OrString(fields.description, product.description));
      product := product.(image := OrString(fields.image, product.image));
      product := product.(brand := OrString(fields.brand, product.brand));
      product := product.(category := OrString(fields.category, product.category));
      product := product.(countInStock := OrInt(fields.countInStock, product.countInStock));
      assert product == ApplyUpdate(products[i], fields);
      UpdateInPlace(products, i, fields);
      products := products[i := product];
      r := Ok(product);
    }

    /** deleteProduct: removes exactly the product with that id and keeps
        the rest in order; not-found and no change for an unknown id. */
    method DeleteProduct(id: ProductId) returns (r: Result<string, ApiError>)
      requires Valid()
      modifies this
      ensures Valid() && nextId == old(nextId)
      ensures r.Err? <==> !HasId(old(products), id)
      ensures r.Err? ==> r.error == ProductNotFound
      ensures r.Ok? ==> r.value == ProductRemoved && |products| == |old(products)| - 1
      ensures products == RemoveProduct(old(products), id)
    {
      var found := FindIndex(products, id);
      if found.None? {
        RemoveUnknownId(products, id);
        return Err(ProductNotFound);
      }
      var i := found.value;
      RemoveAt(products, i);
      CutKeepsProducts(products, i);
      products := products[..i] + products[i + 1..];
      r := Ok(ProductRemoved);
    }

    /** createProductReview: rejects an unknown product, then a user who
        already reviewed it, then a user without a paid order for it,
        leaving the store unchanged; otherwise appends the review and
        recomputes the count and the mean rating of that product only. */
    method CreateProductReview(id: ProductId, user: User, orders: seq<Order>, rating: int, comment: string)
      returns (rejected: Option<ApiError>)
      requires Valid()
      modifies this
      ensures Valid() && nextId == old(nextId)
      ensures rejected == ReviewVerdict(old(products), id, user.id, orders)
      ensures rejected.Some? ==> products == old(products)
      ensures rejected.None? ==>
        var i := FindIndex(old(products), id).value;
        products == old(products)[i := WithReview(old(products)[i], Review(user.name, rating, comment, user.id))]
    ensures rejected.None? ==> WellFormed(products[FindIndex(old(products), id).value])
    {
      var found := FindIndex(products, id);
      if found.None? {
        return Some(ProductNotFound);
      }
      var i := found.value;
      var product := products[i];
      if ReviewedBy(product, user.id) {
        return Some(AlreadyReviewed);
      }
      if !HasPurchased(orders, user.id, id) {
        return Some(NotPurchased);
      }
      var review := Review(user.name, rating, comment, user.id);
      WithReviewWellFormed(product, review);
      product := product.(reviews := product.reviews + [review]);
      product := product.(numReviews := |product.reviews|);
      product := product.(rating := SumRatings(product.reviews) as real / |product.reviews| as real);
      products := products[i := product];
      rejected := None;
    }
  }
}
