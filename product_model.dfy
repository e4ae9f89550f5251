/** `productSchema` and `reviewSchema` (models/Product.js): the document a
    product is stored as, what constructing one does (the `trim` setter and
    the defaults), and when Mongoose accepts it. */
module ProductModel {
  import opened Common
  import opened JsString
  import opened Schema

  datatype Review = Review(user: Option<Id>, rating: Option<JsNumber>, comment: Option<string>)

  datatype Product = Product(
    name: Option<string>,
    description: Option<string>,
    price: Option<JsNumber>,
    images: seq<Option<string>>,
    category: Option<string>,
    stock: Option<JsNumber>,
    user: Option<Id>,
    reviews: seq<Review>,
    rating: Option<JsNumber>,
    numReviews: Option<JsNumber>,
    likes: seq<Id>,
    status: Option<string>)

  const Categories: seq<string> := [
    "Indoor Plants", "Outdoor Plants", "Flowers", "Succulents",
    "Herbs", "Seeds", "Gardening Tools", "Plant Accessories"]

  const Statuses: seq<string> := ["active", "inactive"]

  /** A review names its author, has a rating from 1 to 5 and a comment. */
  predicate ReviewValid(r: Review)
  {
    && r.user.Some?
    && NumberOk(r.rating, true, Some(1.0), Some(5.0))
    && HasString(r.comment)
  }

  function ReviewErrors(r: Review): (errs: seq<SchemaError>)
    ensures errs == [] <==> ReviewValid(r)
  {
    CheckRef("reviews.user", r.user)
    + CheckNumber("reviews.rating", r.rating, true, Some(1.0), Some(5.0))
    + CheckRequired("reviews.comment", r.comment)
  }

  /** Everything `productSchema` demands of a document. */
  predicate Valid(p: Product)
  {
    && StringOk(p.name, true, 100)
    && StringOk(p.description, true, 1000)
    && NumberOk(p.price, true, Some(0.0), Some(10000.0))
    && EnumOk(p.category, true, Categories)
    && NumberOk(p.stock, true, Some(0.0), None)
    && p.user.Some?
    && (forall i :: 0 <= i < |p.reviews| ==> ReviewValid(p.reviews[i]))
    && NumberOk(p.rating, false, Some(0.0), Some(5.0))
    && NumberOk(p.numReviews, false, None, None)
    && EnumOk(p.status, false, Statuses)
  }

  function AllReviewErrors(rs: seq<Review>): (errs: seq<SchemaError>)
    ensures errs == [] <==> forall i :: 0 <= i < |rs| ==> ReviewValid(rs[i])
  {
    if rs == [] then [] else ReviewErrors(rs[0]) + AllReviewErrors(rs[1..])
  }

  /** The validation errors Mongoose reports when saving `p`, in schema
      order; saving succeeds exactly when there are none. */
  function Validate(p: Product): (errs: seq<SchemaError>)
    ensures errs == [] <==> Valid(p)
  {
    CheckString("name", p.name, true, 100)
    + CheckString("description", p.description, true, 1000)
    + CheckNumber("price", p.price, true, Some(0.0), Some(10000.0))
    + CheckEnum("category", p.category, true, Categories)
    + CheckNumber("stock", p.stock, true, Some(0.0), None)
    + CheckRef("user", p.user)
    + AllReviewErrors(p.reviews)
    + CheckNumber("rating", p.rating, false, Some(0.0), Some(5.0))
    + CheckNumber("numReviews", p.numReviews, false, None, None)
    + CheckEnum("status", p.status, false, Statuses)
  }

  /** The `default: 0` of a Number path: applied when the path is absent. */
  function DefaultZero(v: Option<JsNumber>): Option<JsNumber>
  {
    if v.None? then Some(Num(0.0)) else v
  }

  /** `new Product(fields)`: the `trim` setter on `name` and the defaults of
      `stock`, `rating`, `numReviews` and `status`; nothing else changes. */
  function Construct(p: Product): (r: Product)
    ensures r.name.Some? <==> p.name.Some?
    ensures p.name.Some? ==> r.name.value == Trim(p.name.value)
    ensures r.stock == DefaultZero(p.stock) && r.stock.Some?
    ensures r.rating == DefaultZero(p.rating) && r.rating.Some?
    ensures r.numReviews == DefaultZero(p.numReviews) && r.numReviews.Some?
    ensures r.status == (if p.status.None? then Some("active") else p.status)
    ensures r.description == p.description && r.price == p.price && r.images == p.images
    ensures r.category == p.category && r.user == p.user && r.reviews == p.reviews && r.likes == p.likes
  {
    p.(name := if p.name.Some? then Some(Trim(p.name.value)) else None,
       stock := DefaultZero(p.stock),
       rating := DefaultZero(p.rating),
       numReviews := DefaultZero(p.numReviews),
       status := if p.status.None? then Some("active") else p.status)
  }

  /** The defaults pass the schema's own checks, so a field left out of the
      fields given to `new Product` never makes the document invalid; in
      particular `stock`, required by the schema, is always present. The
      validators need no help here; the lemma records, next to `Construct`,
      that the defaults never trip them. */
  lemma DefaultsAreValid(p: Product)
    ensures NumberOk(DefaultZero(p.stock), true, Some(0.0), None) == NumberOk(p.stock, false, Some(0.0), None)
    ensures NumberOk(DefaultZero(p.rating), false, Some(0.0), Some(5.0))
              == NumberOk(p.rating, false, Some(0.0), Some(5.0))
    ensures NumberOk(DefaultZero(p.numReviews), false, None, None) == NumberOk(p.numReviews, false, None, None)
    ensures var s := if p.status.None? then Some("active") else p.status;
            EnumOk(s, false, Statuses) == EnumOk(p.status, false, Statuses)
  {
  }

  /** Constructing a document twice is the same as constructing it once. */
  lemma ConstructIdempotent(p: Product)
    ensures Construct(Construct(p)) == Construct(p)
  {
    if p.name.Some? {
      TrimIdempotent(p.name.value);
    }
  }
}
