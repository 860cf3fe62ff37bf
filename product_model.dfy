/** The product document of `models/productModel.js`: its record shape, the
    `trim` setter on `name`, the `required` validators, the defaults, and the
    review aggregate (`ratings`, `numOfReviews`) that the review handlers keep. */
module ProductModel {
  import opened Common

  /** Document ids are compared through `toString()`, so they are strings. */
  type ObjectId = string

  datatype Image = Image(publicId: string, url: string)

  datatype Review = Review(
    id: ObjectId,
    user: ObjectId,
    name: string,
    avatar: Option<string>,
    rating: int,
    comment: string)

  datatype Product = Product(
    id: ObjectId,
    name: string,
    description: string,
    keyFeatures: string,
    specification: string,
    baseprice: int,
    discountedprice: int,
    ratings: real,
    images: seq<Image>,
    category: string,
    subCategory: string,
    subCategory2: string,
    size: string,
    stock: int,
    color: Option<string>,
    availableColor: Option<string>,
    numOfReviews: int,
    reviews: seq<Review>,
    createdAt: int)

  /** The values handed to `Product.create`, one per schema path; `None` is a
      path left undefined. Sub-documents get their `_id` from Mongoose, here `id`. */
  datatype ImageFields = ImageFields(publicId: Option<string>, url: Option<string>)

  datatype ReviewFields = ReviewFields(
    id: ObjectId,
    user: Option<ObjectId>,
    name: Option<string>,
    avatar: Option<string>,
    rating: Option<int>,
    comment: Option<string>)

  datatype ProductFields = ProductFields(
    name: Option<string>,
    description: Option<string>,
    keyFeatures: Option<string>,
    specification: Option<string>,
    baseprice: Option<int>,
    discountedprice: Option<int>,
    ratings: Option<real>,
    images: seq<ImageFields>,
    category: Option<string>,
    subCategory: Option<string>,
    subCategory2: Option<string>,
    size: Option<string>,
    stock: Option<int>,
    color: Option<string>,
    availableColor: Option<string>,
    numOfReviews: Option<int>,
    reviews: seq<ReviewFields>,
    createdAt: Option<int>)

  /** The error Mongoose raises when a `required` validator fails. */
  const ValidationError := Failure(None, "ValidationError")

  // ---------------------------------------------------------------------------
  // The `trim: true` setter: JavaScript's String.prototype.trim

  /** ECMAScript WhiteSpace and LineTerminator code points. */
  predicate IsJsSpace(c: char)
  {
    var n := c as int;
    n == 0x09 || n == 0x0A || n == 0x0B || n == 0x0C || n == 0x0D || n == 0x20 ||
    n == 0xA0 || n == 0x1680 || (0x2000 <= n <= 0x200A) || n == 0x2028 ||
    n == 0x2029 || n == 0x202F || n == 0x205F || n == 0x3000 || n == 0xFEFF
  }

  ghost predicate AllSpace(s: string)
  {
    forall k :: 0 <= k < |s| ==> IsJsSpace(s[k])
  }

  function TrimStart(s: string): string
  {
    if |s| > 0 && IsJsSpace(s[0]) then TrimStart(s[1..]) else s
  }

  function TrimEnd(s: string): string
  {
    if |s| > 0 && IsJsSpace(s[|s| - 1]) then TrimEnd(s[..|s| - 1]) else s
  }

  function Trim(s: string): string
  {
    TrimEnd(TrimStart(s))
  }

  lemma {:induction false} TrimStartShape(s: string)
    ensures exists i :: 0 <= i <= |s| && TrimStart(s) == s[i..] && AllSpace(s[..i])
    ensures TrimStart(s) == [] || !IsJsSpace(TrimStart(s)[0])
  {
    if |s| > 0 && IsJsSpace(s[0]) {
      TrimStartShape(s[1..]);
      var i :| 0 <= i <= |s[1..]| && TrimStart(s[1..]) == s[1..][i..] && AllSpace(s[1..][..i]);
      assert TrimStart(s) == s[i + 1..];
      assert s[..i + 1] == [s[0]] + s[1..][..i];
    } else {
      assert TrimStart(s) == s[0..];
      assert s[..0] == [];
    }
  }

  lemma {:induction false} TrimEndShape(s: string)
    ensures exists j :: 0 <= j <= |s| && TrimEnd(s) == s[..j] && AllSpace(s[j..])
    ensures TrimEnd(s) == [] || !IsJsSpace(TrimEnd(s)[|TrimEnd(s)| - 1])
  {
    if |s| > 0 && IsJsSpace(s[|s| - 1]) {
      var s' := s[..|s| - 1];
      TrimEndShape(s');
      var j :| 0 <= j <= |s'| && TrimEnd(s') == s'[..j] && AllSpace(s'[j..]);
      assert s'[..j] == s[..j];
      assert TrimEnd(s) == s[..j];
      forall k | 0 <= k < |s[j..]|
        ensures IsJsSpace(s[j..][k])
      {
        if j + k < |s| - 1 {
          assert s[j..][k] == s'[j..][k];
        }
      }
    } else {
      assert TrimEnd(s) == s[..|s|];
    }
  }

  /** A trimmed name is the input with its leading and trailing white space cut off. */
  lemma TrimIsInfix(s: string)
    ensures exists i, j :: 0 <= i <= j <= |s| && Trim(s) == s[i..j] && AllSpace(s[..i]) && AllSpace(s[j..])
  {
    TrimStartShape(s);
    var i :| 0 <= i <= |s| && TrimStart(s) == s[i..] && AllSpace(s[..i]);
    var t := s[i..];
    TrimEndShape(t);
    var j :| 0 <= j <= |t| && TrimEnd(t) == t[..j] && AllSpace(t[j..]);
    assert Trim(s) == s[i..i + j] by {
      assert t[..j] == s[i..i + j];
    }
    assert AllSpace(s[i + j..]) by {
      assert t[j..] == s[i + j..];
    }
  }

  /** A trimmed name neither starts nor ends with white space. */
  lemma TrimHasNoEdgeSpace(s: string)
    ensures Trim(s) == [] || (!IsJsSpace(Trim(s)[0]) && !IsJsSpace(Trim(s)[|Trim(s)| - 1]))
  {
    TrimStartShape(s);
    var t := TrimStart(s);
    TrimEndShape(t);
    var j :| 0 <= j <= |t| && TrimEnd(t) == t[..j] && AllSpace(t[j..]);
    if Trim(s) != [] {
      assert Trim(s)[0] == t[0];
    }
  }

  /** Trimming a trimmed string changes nothing, so re-saving a product keeps its name. */
  lemma TrimIdempotent(s: string)
    ensures Trim(Trim(s)) == Trim(s)
  {
    TrimHasNoEdgeSpace(s);
    var t := Trim(s);
    assert TrimStart(t) == t;
    assert TrimEnd(t) == t;
  }

  // ---------------------------------------------------------------------------
  // Required paths, defaults and document creation

  /** A String path passes `required` when it holds a non-empty string; a
      Number or ObjectId path passes when it is set at all. */
  predicate ImageFieldsValid(f: ImageFields)
  {
    FilledStr(f.publicId) && FilledStr(f.url)
  }

  predicate ReviewFieldsValid(f: ReviewFields)
  {
    f.user.Some? && FilledStr(f.name) && f.rating.Some? && FilledStr(f.comment)
  }

  /** The `name` path after its `trim` setter, which runs before validation. */
  function StoredName(f: ProductFields): Option<string>
  {
    if f.name.Some? then Some(Trim(f.name.value)) else None
  }

  /** Every `required: true` path of the schema. `stock` is required too, but
      its default of 1 fills it whenever it is left undefined. */
  predicate HasRequired(f: ProductFields)
  {
    && FilledStr(StoredName(f))
    && FilledStr(f.description)
    && FilledStr(f.keyFeatures)
    && FilledStr(f.specification)
    && f.baseprice.Some?
    && f.discountedprice.Some?
    && FilledStr(f.category)
    && FilledStr(f.subCategory)
    && FilledStr(f.size)
    && (forall i :: 0 <= i < |f.images| ==> ImageFieldsValid(f.images[i]))
    && (forall i :: 0 <= i < |f.reviews| ==> ReviewFieldsValid(f.reviews[i]))
  }

  /** What every stored product satisfies: the required strings are non-empty,
      the name is trimmed, and every image and review entry has its required parts. */
  predicate WellFormed(p: Product)
  {
    && p.name != "" && Trim(p.name) == p.name
    && p.description != "" && p.keyFeatures != "" && p.specification != ""
    && p.category != "" && p.subCategory != "" && p.size != ""
    && (forall i :: 0 <= i < |p.images| ==> p.images[i].publicId != "" && p.images[i].url != "")
    && (forall i :: 0 <= i < |p.reviews| ==> p.reviews[i].name != "" && p.reviews[i].comment != "")
  }

  function GetOr<T>(v: Option<T>, default: T): T
  {
    if v.Some? then v.value else default
  }

  function ImageOf(f: ImageFields): Image
    requires ImageFieldsValid(f)
  {
    Image(f.publicId.value, f.url.value)
  }

  function ReviewOf(f: ReviewFields): Review
    requires ReviewFieldsValid(f)
  {
    Review(f.id, f.user.value, f.name.value, f.avatar, f.rating.value, f.comment.value)
  }

  /** `Product.create(fields)`: run the setters, fill the defaults, validate. */
  function CreateDocument(f: ProductFields, id: ObjectId, now: int): (r: Result<Product>)
    ensures r.Ok? <==> HasRequired(f)
    ensures r.Err? ==> r.failure == ValidationError
    ensures r.Ok? ==> WellFormed(r.value) && r.value.id == id
  {
    if !HasRequired(f) then Err(ValidationError)
    else
      var p := Product(
        id,
        StoredName(f).value,
        f.description.value,
        f.keyFeatures.value,
        f.specification.value,
        f.baseprice.value,
        f.discountedprice.value,
        GetOr(f.ratings, 0.0),
        seq(|f.images|, i requires 0 <= i < |f.images| && ImageFieldsValid(f.images[i]) => ImageOf(f.images[i])),
        f.category.value,
        f.subCategory.value,
        GetOr(f.subCategory2, ""),
        f.size.value,
        GetOr(f.stock, 1),
        f.color,
        f.availableColor,
        GetOr(f.numOfReviews, 0),
        seq(|f.reviews|, i requires 0 <= i < |f.reviews| && ReviewFieldsValid(f.reviews[i]) => ReviewOf(f.reviews[i])),
        GetOr(f.createdAt, now));
      TrimIdempotent(f.name.value);
      Ok(p)
  }

  /** The schema defaults: `ratings` 0, `numOfReviews` 0, `stock` 1,
      `sub_category2` "" and `createdAt` now, each only when left undefined. */
  lemma CreateAppliesDefaults(f: ProductFields, id: ObjectId, now: int)
    requires HasRequired(f)
    ensures var p := CreateDocument(f, id, now).value;
      && p.ratings == (if f.ratings.None? then 0.0 else f.ratings.value)
      && p.numOfReviews == (if f.numOfReviews.None? then 0 else f.numOfReviews.value)
      && p.stock == (if f.stock.None? then 1 else f.stock.value)
      && p.subCategory2 == (if f.subCategory2.None? then "" else f.subCategory2.value)
      && p.createdAt == (if f.createdAt.None? then now else f.createdAt.value)
      && p.name == Trim(f.name.value)
      && |p.images| == |f.images| && |p.reviews| == |f.reviews|
  {
  }

  // ---------------------------------------------------------------------------
  // The review aggregate

  /** The running total `avg += rev.rating` over the reviews in order. */
  function SumRatings(rs: seq<Review>): int
  {
    if rs == [] then 0 else SumRatings(rs[..|rs| - 1]) + rs[|rs| - 1].rating
  }

  /** `ratings` as the handlers compute it: the mean rating, or 0 for no reviews. */
  function MeanRating(rs: seq<Review>): real
  {
    if |rs| == 0 then 0.0 else (SumRatings(rs) as real) / (|rs| as real)
  }

  /** `numOfReviews` counts the reviews and `ratings` is their mean. */
  predicate AggregateConsistent(p: Product)
  {
    p.numOfReviews == |p.reviews| && p.ratings == MeanRating(p.reviews)
  }

  /** The mean times the count is the total, for any list, empty or not. */
  lemma MeanTimesCount(rs: seq<Review>)
    ensures MeanRating(rs) * (|rs| as real) == SumRatings(rs) as real
  {
    if |rs| == 0 {
      assert SumRatings(rs) == 0;
    }
  }

  /** A product created without `ratings`, `numOfReviews` or reviews already
      satisfies the aggregate invariant that the review handlers maintain. */
  lemma NewProductAggregate(f: ProductFields, id: ObjectId, now: int)
    requires HasRequired(f)
    requires f.ratings.None? && f.numOfReviews.None? && f.reviews == []
    ensures AggregateConsistent(CreateDocument(f, id, now).value)
    ensures CreateDocument(f, id, now).value.reviews == []
  {
  }
}
