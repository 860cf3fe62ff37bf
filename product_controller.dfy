/** The in-memory logic of `controllers/productController.js`: the
    `createProduct` required-field check and the review table kept by
    `createProductReview` and `deleteReview`.

    Each handler loads its own copy of the product with `findById`; nothing
    else holds a reference to that copy, so changing it in place and saving it
    is modelled as computing the new document and returning it. The lookup is
    an `Option<Product>` parameter. */
module ProductController {
  import opened Common
  import opened ProductModel

  // ---------------------------------------------------------------------------
  // createProduct: required-field check

  /** A multipart request body: every field arrives as text, if at all. */
  datatype CreateProductBody = CreateProductBody(
    name: Option<string>,
    description: Option<string>,
    price: Option<string>,
    category: Option<string>,
    subCategory: Option<string>,
    subCategory2: Option<string>,
    size: Option<string>,
    stock: Option<string>)

  const AllFieldRequired := Failure(Some(404), "All Field Required")

  /** The request is refused when one of seven fields is falsy; `sub_category2`
      is not among them, so it is optional. */
  function CheckCreateProduct(b: CreateProductBody): (r: Outcome)
    ensures r.Pass? <==>
      && FilledStr(b.name) && FilledStr(b.description) && FilledStr(b.price)
      && FilledStr(b.category) && FilledStr(b.stock) && FilledStr(b.subCategory)
      && FilledStr(b.size)
    ensures r.Fail? ==> r.failure == AllFieldRequired
  {
    if !FilledStr(b.name) || !FilledStr(b.description) || !FilledStr(b.price) ||
       !FilledStr(b.category) || !FilledStr(b.stock) || !FilledStr(b.subCategory) ||
       !FilledStr(b.size)
    then Fail(AllFieldRequired)
    else Pass
  }

  // ---------------------------------------------------------------------------
  // The review table

  datatype ReviewBody = ReviewBody(rating: Option<int>, comment: Option<string>, productId: Option<ObjectId>)

  /** The authenticated user, `req.user`. */
  datatype RequestUser = RequestUser(id: ObjectId, name: string)

  const ReviewFieldsMissing := Failure(Some(400), "Please Enter Your Comments and Ratings")
  const ProductNotFound := Failure(Some(404), "Product not found")

  predicate ReviewedBy(rs: seq<Review>, user: ObjectId)
  {
    exists i :: 0 <= i < |rs| && rs[i].user == user
  }

  /** The table holds at most one review per user. */
  predicate OneReviewPerUser(rs: seq<Review>)
  {
    forall i, j :: 0 <= i < j < |rs| ==> rs[i].user != rs[j].user
  }

  /** The body of the `forEach` that rewrites the user's own review. */
  function Revised(rv: Review, user: ObjectId, rating: int, comment: string): Review
  {
    if rv.user == user then rv.(rating := rating, comment := comment) else rv
  }

  function ReviseBy(rs: seq<Review>, user: ObjectId, rating: int, comment: string): seq<Review>
  {
    if rs == [] then [] else [Revised(rs[0], user, rating, comment)] + ReviseBy(rs[1..], user, rating, comment)
  }

  /** The review pushed for a user who has none yet; Mongoose gives it `freshId`. */
  function NewReview(u: RequestUser, rating: int, comment: string, freshId: ObjectId): Review
  {
    Review(freshId, u.id, u.name, None, rating, comment)
  }

  /** Update the user's review if there is one, otherwise append a new one. */
  function UpsertReview(rs: seq<Review>, u: RequestUser, rating: int, comment: string, freshId: ObjectId): seq<Review>
  {
    if ReviewedBy(rs, u.id) then ReviseBy(rs, u.id, rating, comment)
    else rs + [NewReview(u, rating, comment, freshId)]
  }

  /** The product `createProductReview` saves. `numOfReviews` is only
      reassigned on the append branch; `ratings` is always recomputed. */
  function SubmitReview(p: Product, u: RequestUser, rating: int, comment: string, freshId: ObjectId): Product
  {
    var rs := UpsertReview(p.reviews, u, rating, comment, freshId);
    p.(reviews := rs,
       numOfReviews := if ReviewedBy(p.reviews, u.id) then p.numOfReviews else |rs|,
       ratings := MeanRating(rs))
  }

  /** What `createProductReview` does with a request, as one value. */
  function ReviewOutcome(b: ReviewBody, u: RequestUser, found: Option<Product>, freshId: ObjectId): (r: Result<Product>)
    ensures !(FilledStr(b.comment) && NonZero(b.rating) && FilledStr(b.productId)) ==> r == Err(ReviewFieldsMissing)
    ensures r.Ok? <==> FilledStr(b.comment) && NonZero(b.rating) && FilledStr(b.productId) && found.Some?
    ensures r.Ok? ==>
      && ReviewedBy(r.value.reviews, u.id)
      && r.value.ratings * (|r.value.reviews| as real) == SumRatings(r.value.reviews) as real
      && r.value == found.value.(reviews := r.value.reviews, ratings := r.value.ratings, numOfReviews := r.value.numOfReviews)
    ensures r.Ok? ==>
      r.value.reviews == UpsertReview(found.value.reviews, u, b.rating.value, b.comment.value, freshId)
    ensures r.Ok? && !ReviewedBy(found.value.reviews, u.id) ==> r.value.numOfReviews == |r.value.reviews|
    ensures r.Ok? && ReviewedBy(found.value.reviews, u.id) ==> r.value.numOfReviews == found.value.numOfReviews
  {
    if !FilledStr(b.comment) || !NonZero(b.rating) || !FilledStr(b.productId) then Err(ReviewFieldsMissing)
    else if found.None? then Err(TypeError)
    else
      var q := SubmitReview(found.value, u, b.rating.value, b.comment.value, freshId);
      SubmitReviewAggregate(found.value, u, b.rating.value, b.comment.value, freshId);
      Ok(q)
  }

  // ---------------------------------------------------------------------------
  // The loops of the handlers

  /** `avg += rev.rating` over every review, in order. */
  method TotalRating(rs: seq<Review>) returns (total: int)
    ensures total == SumRatings(rs)
  {
    total := 0;
    var i := 0;
    while i < |rs|
      invariant 0 <= i <= |rs|
      invariant total == SumRatings(rs[..i])
    {
      assert rs[..i + 1][..i] == rs[..i];
      total := total + rs[i].rating;
      i := i + 1;
    }
    assert rs[..|rs|] == rs;
  }

  /** `reviews.find(rev => rev.user === user)`, as a truth value. */
  method FindReviewBy(rs: seq<Review>, user: ObjectId) returns (found: bool)
    ensures found <==> ReviewedBy(rs, user)
  {
    found := false;
    var i := 0;
    while i < |rs|
      invariant 0 <= i <= |rs|
      invariant forall k :: 0 <= k < i ==> rs[k].user != user
    {
      if rs[i].user == user {
        return true;
      }
      i := i + 1;
    }
  }

  /** `createProductReview`: validate, load, update-or-push, recompute the mean. */
  method CreateProductReview(b: ReviewBody, u: RequestUser, found: Option<Product>, freshId: ObjectId)
    returns (r: Result<Product>)
    ensures r == ReviewOutcome(b, u, found, freshId)
  {
    if !FilledStr(b.comment) || !NonZero(b.rating) || !FilledStr(b.productId) {
      return Err(ReviewFieldsMissing);
    }
    var rating, comment := b.rating.value, b.comment.value;
    if found.None? {
      return Err(TypeError);
    }
    var product := found.value;
    var isReviewed := FindReviewBy(product.reviews, u.id);
    var reviews := product.reviews;
    var numOfReviews := product.numOfReviews;
    if isReviewed {
      var i := 0;
      while i < |reviews|
        invariant 0 <= i <= |reviews| == |product.reviews|
        invariant forall k :: 0 <= k < i ==> reviews[k] == Revised(product.reviews[k], u.id, rating, comment)
        invariant forall k :: i <= k < |reviews| ==> reviews[k] == product.reviews[k]
      {
        if reviews[i].user == u.id {
          reviews := reviews[i := reviews[i].(rating := rating, comment := comment)];
        }
        i := i + 1;
      }
      ReviseByAt(product.reviews, u.id, rating, comment);
    } else {
      reviews := reviews + [NewReview(u, rating, comment, freshId)];
      numOfReviews := |reviews|;
    }
    assert reviews == UpsertReview(product.reviews, u, rating, comment, freshId);
    var avg := TotalRating(reviews);
    var ratings := (avg as real) / (|reviews| as real);
    r := Ok(product.(reviews := reviews, numOfReviews := numOfReviews, ratings := ratings));
  }

  // ---------------------------------------------------------------------------
  // Properties of the upsert

  lemma {:induction false} ReviseByAt(rs: seq<Review>, user: ObjectId, rating: int, comment: string)
    ensures |ReviseBy(rs, user, rating, comment)| == |rs|
    ensures forall k :: 0 <= k < |rs| ==> ReviseBy(rs, user, rating, comment)[k] == Revised(rs[k], user, rating, comment)
  {
    if rs != [] {
      ReviseByAt(rs[1..], user, rating, comment);
    }
  }

  /** Updating an existing review keeps the length and every review's id,
      author, name and avatar; only that user's `rating` and `comment` change. */
  lemma UpsertRevisesExisting(rs: seq<Review>, u: RequestUser, rating: int, comment: string, freshId: ObjectId)
    requires ReviewedBy(rs, u.id)
    ensures var out := UpsertReview(rs, u, rating, comment, freshId);
      && |out| == |rs|
      && (forall k :: 0 <= k < |rs| && rs[k].user != u.id ==> out[k] == rs[k])
      && (forall k :: 0 <= k < |rs| && rs[k].user == u.id ==>
            out[k] == Review(rs[k].id, rs[k].user, rs[k].name, rs[k].avatar, rating, comment))
  {
    ReviseByAt(rs, u.id, rating, comment);
  }

  /** A first review by a user is appended at the end, and nothing else moves. */
  lemma UpsertAppendsNew(rs: seq<Review>, u: RequestUser, rating: int, comment: string, freshId: ObjectId)
    requires !ReviewedBy(rs, u.id)
    ensures var out := UpsertReview(rs, u, rating, comment, freshId);
      && |out| == |rs| + 1
      && out[..|rs|] == rs
      && out[|rs|] == Review(freshId, u.id, u.name, None, rating, comment)
  {
  }

  /** The upsert keeps the table at one review per user, and the user has
      exactly one review afterwards. */
  lemma UpsertKeepsOneReviewPerUser(rs: seq<Review>, u: RequestUser, rating: int, comment: string, freshId: ObjectId)
    requires OneReviewPerUser(rs)
    ensures OneReviewPerUser(UpsertReview(rs, u, rating, comment, freshId))
    ensures ReviewedBy(UpsertReview(rs, u, rating, comment, freshId), u.id)
  {
    var out := UpsertReview(rs, u, rating, comment, freshId);
    if ReviewedBy(rs, u.id) {
      ReviseByAt(rs, u.id, rating, comment);
      forall i, j | 0 <= i < j < |out|
        ensures out[i].user != out[j].user
      {
        assert out[i].user == rs[i].user && out[j].user == rs[j].user;
      }
      var k :| 0 <= k < |rs| && rs[k].user == u.id;
      assert out[k].user == u.id;
    } else {
      assert out[|rs|].user == u.id;
    }
  }

  /** After a submission the table is non-empty and `ratings` times the count
      is the sum of the ratings; a product whose aggregate was consistent
      stays consistent. */
  lemma SubmitReviewAggregate(p: Product, u: RequestUser, rating: int, comment: string, freshId: ObjectId)
    ensures var q := SubmitReview(p, u, rating, comment, freshId);
      && |q.reviews| > 0
      && q.ratings * (|q.reviews| as real) == SumRatings(q.reviews) as real
      && ReviewedBy(q.reviews, u.id)
      && (!ReviewedBy(p.reviews, u.id) ==> q.numOfReviews == |q.reviews| == |p.reviews| + 1)
      && (AggregateConsistent(p) ==> AggregateConsistent(q))
  {
    var q := SubmitReview(p, u, rating, comment, freshId);
    if ReviewedBy(p.reviews, u.id) {
      ReviseByAt(p.reviews, u.id, rating, comment);
      var k :| 0 <= k < |p.reviews| && p.reviews[k].user == u.id;
      assert q.reviews[k].user == u.id;
    } else {
      assert q.reviews[|p.reviews|].user == u.id;
    }
    MeanTimesCount(q.reviews);
  }

  // ---------------------------------------------------------------------------
  // deleteReview

  /** `reviews.filter(rev => rev._id !== id)`. */
  function WithoutReview(rs: seq<Review>, id: ObjectId): seq<Review>
  {
    if rs == [] then []
    else (if rs[0].id != id then [rs[0]] else []) + WithoutReview(rs[1..], id)
  }

  /** What `deleteReview` saves. The filter callback reads `req.query.id`, so a
      missing id throws, but only when there is at least one review to test. */
  function DeleteReviewOutcome(found: Option<Product>, id: Option<ObjectId>): (r: Result<Product>)
    ensures found.None? ==> r == Err(ProductNotFound)
    ensures r.Ok? <==> found.Some? && (id.Some? || found.value.reviews == [])
    ensures r.Ok? ==>
      && AggregateConsistent(r.value)
      && (forall x :: x in r.value.reviews <==> x in found.value.reviews && Some(x.id) != id)
      && r.value == found.value.(reviews := r.value.reviews, ratings := r.value.ratings, numOfReviews := r.value.numOfReviews)
  {
    if found.None? then Err(ProductNotFound)
    else if found.value.reviews == [] then
      Ok(found.value.(reviews := [], ratings := 0.0, numOfReviews := 0))
    else if id.None? then Err(TypeError)
    else
      var rs := WithoutReview(found.value.reviews, id.value);
      WithoutReviewMembers(found.value.reviews, id.value);
      Ok(found.value.(reviews := rs, ratings := MeanRating(rs), numOfReviews := |rs|))
  }

  /** `deleteReview`: filter, total the remaining ratings, store mean and count. */
  method DeleteReview(found: Option<Product>, id: Option<ObjectId>) returns (r: Result<Product>)
    ensures r == DeleteReviewOutcome(found, id)
  {
    if found.None? {
      return Err(ProductNotFound);
    }
    var product := found.value;
    var reviews: seq<Review>;
    if product.reviews == [] {
      reviews := [];
    } else if id.None? {
      return Err(TypeError);
    } else {
      reviews := WithoutReview(product.reviews, id.value);
    }
    var avg := TotalRating(reviews);
    var ratings := 0.0;
    if |reviews| == 0 {
      ratings := 0.0;
    } else {
      ratings := (avg as real) / (|reviews| as real);
    }
    var numOfReviews := |reviews|;
    r := Ok(product.(reviews := reviews, ratings := ratings, numOfReviews := numOfReviews));
  }

  // ---------------------------------------------------------------------------
  // Properties of the filter

  /** Exactly the reviews with a different id survive. */
  lemma {:induction false} WithoutReviewMembers(rs: seq<Review>, id: ObjectId)
    ensures forall x :: x in WithoutReview(rs, id) <==> x in rs && x.id != id
  {
    if rs != [] {
      WithoutReviewMembers(rs[1..], id);
      assert rs == [rs[0]] + rs[1..];
    }
  }

  /** Filtering a concatenation filters each part: the survivors keep their order. */
  lemma {:induction false} WithoutReviewConcat(a: seq<Review>, b: seq<Review>, id: ObjectId)
    ensures WithoutReview(a + b, id) == WithoutReview(a, id) + WithoutReview(b, id)
  {
    if a != [] {
      WithoutReviewConcat(a[1..], b, id);
      assert (a + b)[1..] == a[1..] + b;
    } else {
      assert a + b == b;
    }
  }

  /** Deleting the same id twice is the same as deleting it once. */
  lemma {:induction false} WithoutReviewIdempotent(rs: seq<Review>, id: ObjectId)
    ensures WithoutReview(WithoutReview(rs, id), id) == WithoutReview(rs, id)
  {
    if rs != [] {
      WithoutReviewIdempotent(rs[1..], id);
      if rs[0].id == id {
        assert WithoutReview(rs, id) == WithoutReview(rs[1..], id);
      } else {
        assert WithoutReview(rs, id) == [rs[0]] + WithoutReview(rs[1..], id);
        assert ([rs[0]] + WithoutReview(rs[1..], id))[1..] == WithoutReview(rs[1..], id);
      }
    }
  }

  /** An id no review carries leaves the table as it is. */
  lemma {:induction false} WithoutReviewAbsent(rs: seq<Review>, id: ObjectId)
    requires forall k :: 0 <= k < |rs| ==> rs[k].id != id
    ensures WithoutReview(rs, id) == rs
  {
    if rs != [] {
      WithoutReviewAbsent(rs[1..], id);
    }
  }

  /** Deleting keeps the table at one review per user. */
  lemma {:induction false} WithoutReviewKeepsOneReviewPerUser(rs: seq<Review>, id: ObjectId)
    requires OneReviewPerUser(rs)
    ensures OneReviewPerUser(WithoutReview(rs, id))
  {
    if rs != [] {
      var tail := WithoutReview(rs[1..], id);
      WithoutReviewKeepsOneReviewPerUser(rs[1..], id);
      WithoutReviewMembers(rs[1..], id);
      if rs[0].id != id {
        var out := [rs[0]] + tail;
        forall i, j | 0 <= i < j < |out|
          ensures out[i].user != out[j].user
        {
          if i == 0 {
            assert out[j] in tail;
            var m :| 0 <= m < |rs[1..]| && rs[1..][m] == out[j];
            assert rs[m + 1] == out[j];
          } else {
            assert out[i] == tail[i - 1] && out[j] == tail[j - 1];
          }
        }
      }
    }
  }

  /** A first review, deleted again by the id it was given, leaves the table
      (and so the aggregate) as it was, provided that id was not in use. */
  lemma SubmitThenDeleteRestores(rs: seq<Review>, u: RequestUser, rating: int, comment: string, freshId: ObjectId)
    requires !ReviewedBy(rs, u.id)
    requires forall k :: 0 <= k < |rs| ==> rs[k].id != freshId
    ensures WithoutReview(UpsertReview(rs, u, rating, comment, freshId), freshId) == rs
  {
    var nr := NewReview(u, rating, comment, freshId);
    WithoutReviewConcat(rs, [nr], freshId);
    WithoutReviewAbsent(rs, freshId);
    assert WithoutReview([nr], freshId) == [];
  }
}
