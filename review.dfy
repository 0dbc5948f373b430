/** The review service: a customer may review a product once, only after
    buying it and only once an order holding it is completed; only the author
    may change or remove a review. The product catalogue and the purchase
    queries are outside the store and reach the model as inputs. */
module Reviews {
  import opened Wrappers
  import opened AppErrors
  import opened Uuids
  import Repo
  import ReviewErrors

  /** A stored review; every review the service writes is a verified purchase. */
  datatype Review = Review(id: Uuid, userId: Uuid, productId: Uuid, orderId: Uuid,
                           rating: int, comment: string, verified: bool)

  /** ReviewResponse; the author's name comes from the users table through
      GetReviewByID and is an input here. Timestamps are not modelled. */
  datatype ReviewResponse = ReviewResponse(id: string, userId: string, userName: string, productId: string,
                                           rating: int, comment: string, verified: bool)

  /** mapToReviewResponse. */
  function ResponseOf(rv: Review, userName: string): ReviewResponse
  {
    ReviewResponse(rv.id.text, rv.userId.text, userName, rv.productId.text, rv.rating, rv.comment, rv.verified)
  }

  // ---------------------------------------------------------------------------
  // Request validation: `validate:"required,min=1,max=5"` on Rating and
  // `validate:"required,min=10,max=1000"` on Comment
  // ---------------------------------------------------------------------------

  /** The first tag a rating fails, in tag order. */
  function RatingTag(rating: int): (t: Option<string>)
    ensures t.None? <==> 1 <= rating <= 5
  {
    if rating == 0 then Some("required")
    else if rating < 1 then Some("min")
    else if rating > 5 then Some("max")
    else None
  }

  /** The first tag a comment fails; lengths count characters. */
  function CommentTag(comment: string): (t: Option<string>)
    ensures t.None? <==> 10 <= |comment| <= 1000
  {
    if comment == "" then Some("required")
    else if |comment| < 10 then Some("min")
    else if |comment| > 1000 then Some("max")
    else None
  }

  /** The validator's field errors, in field order. */
  function FieldErrorsOf(rating: int, comment: string): (errs: seq<FieldError>)
    ensures |errs| == 0 <==> RatingTag(rating).None? && CommentTag(comment).None?
    ensures RatingTag(rating).Some? ==> errs[0] == FieldError("Rating", RatingTag(rating).value)
    ensures RatingTag(rating).None? && CommentTag(comment).Some? ==>
      errs[0] == FieldError("Comment", CommentTag(comment).value)
  {
    (if RatingTag(rating).Some? then [FieldError("Rating", RatingTag(rating).value)] else [])
    + (if CommentTag(comment).Some? then [FieldError("Comment", CommentTag(comment).value)] else [])
  }

  /** `validate.Struct(req)` followed by `apperror.MapValidationError`. */
  function Validate(rating: int, comment: string): (e: Option<Error>)
    ensures e.None? <==> 1 <= rating <= 5 && 10 <= |comment| <= 1000
    ensures e.Some? ==> ToHTTP(e).status == 400
  {
    var errs := FieldErrorsOf(rating, comment);
    if |errs| == 0 then None else Some(MapValidationError(FieldErrors(errs)))
  }

  /** A bad rating is reported before a bad comment: the reply names the rating. */
  lemma ValidateReportsRatingFirst(rating: int, comment: string)
    requires !(1 <= rating <= 5)
    ensures ToHTTP(Validate(rating, comment)).message ==
      if rating == 0 then "rating is required" else "rating is invalid"
  {
    assert Text.Lower("Rating") == "rating";
  }

  // ---------------------------------------------------------------------------
  // Pagination
  // ---------------------------------------------------------------------------

  datatype PageLimit = PageLimit(page: int, limit: int)

  /** The list methods' normalisation: page below 1 becomes 1, a limit outside
      [1, 50] becomes 10. */
  function Window(page: int, limit: int): (p: PageLimit)
    ensures p.page >= 1 && 1 <= p.limit <= 50
    ensures page >= 1 <==> p.page == page
    ensures 1 <= limit <= 50 <==> p.limit == limit
    ensures !(1 <= limit <= 50) ==> p.limit == 10
  {
    PageLimit(if page < 1 then 1 else page, if limit < 1 || limit > 50 then 10 else limit)
  }

  lemma WindowIdempotent(page: int, limit: int)
    ensures var p := Window(page, limit); Window(p.page, p.limit) == p
  {
  }

  /** A row of GetReviewsByProductID, with the author's name joined in. */
  datatype ReviewRow = ReviewRow(review: Review, userName: string)

  /** A row of GetReviewsByUserID, with the product's name and slug joined in. */
  datatype UserReviewRow = UserReviewRow(id: Uuid, productId: Uuid, productName: string, productSlug: string,
                                         rating: int, comment: string)

  datatype UserReviewResponse = UserReviewResponse(id: string, productId: string, productName: string,
                                                   productSlug: string, rating: int, comment: string)

  function UserResponseOf(row: UserReviewRow): UserReviewResponse
  {
    UserReviewResponse(row.id.text, row.productId.text, row.productName, row.productSlug, row.rating, row.comment)
  }

  datatype ReviewList<T> = ReviewList(reviews: seq<T>, total: int, page: int, limit: int)

  /** The append loop of GetByProductSlug. */
  method MapReviewRows(rows: seq<ReviewRow>) returns (res: seq<ReviewResponse>)
    ensures |res| == |rows|
    ensures forall i :: 0 <= i < |rows| ==> res[i] == ResponseOf(rows[i].review, rows[i].userName)
  {
    res := [];
    for i := 0 to |rows|
      invariant |res| == i
      invariant forall k :: 0 <= k < i ==> res[k] == ResponseOf(rows[k].review, rows[k].userName)
    {
      res := res + [ResponseOf(rows[i].review, rows[i].userName)];
    }
  }

  /** The append loop of GetByUserID. */
  method MapUserRows(rows: seq<UserReviewRow>) returns (res: seq<UserReviewResponse>)
    ensures |res| == |rows|
    ensures forall i :: 0 <= i < |rows| ==> res[i] == UserResponseOf(rows[i])
  {
    res := [];
    for i := 0 to |rows|
      invariant |res| == i
      invariant forall k :: 0 <= k < i ==> res[k] == UserResponseOf(rows[k])
    {
      res := res + [UserResponseOf(rows[i])];
    }
  }

  // ---------------------------------------------------------------------------
  // Injected outcomes of the calls the model does not see into
  // ---------------------------------------------------------------------------

  /** GetBySlug on the product repository, CheckExists, and CheckUserPurchased
      (whose answer comes from the order tables). */
  datatype CheckFaults = CheckFaults(product: Option<Error>, existing: Option<Error>, purchased: Result<bool, Error>)

  /** The rest of Create: GetCompletedOrder's answer, BeginTx, the insert,
      Commit, and the final GetByID (which yields the author's name). */
  datatype CreateFaults = CreateFaults(checks: CheckFaults, completedOrder: Result<Uuid, Error>,
                                       begin: Option<Error>, create: Option<Error>, commit: Option<Error>,
                                       fetch: Result<string, Error>)

  /** GetByID, BeginTx, the update or delete, Commit, and the final GetByID. */
  datatype WriteFaults = WriteFaults(get: Option<Error>, begin: Option<Error>, write: Option<Error>,
                                     commit: Option<Error>, fetch: Result<string, Error>)

  datatype ListFaults = ListFaults(product: Option<Error>, list: Option<Error>, count: Result<int, Error>)

  /** A repository read that misses is reported as the not-found error, any
      other failure as ErrReviewFailed. */
  function LookupError(e: Error, notFound: Error): Error
  {
    if e == ErrNoRows then notFound else ReviewErrors.ErrReviewFailed
  }

  datatype Eligibility = Eligibility(canReview: bool, reason: string, hasPurchased: bool, alreadyReviewed: bool)

  const Anonymous: Eligibility := Eligibility(false, "You must be logged in to review products", false, false)

  class ReviewService {
    /** The reviews table, by id. */
    var reviews: map<Uuid, Review>
    /** The product repository's slugs, which this service only reads. */
    var products: map<string, Uuid>

    /** Each review is stored under its id, and no user has two reviews of one product. */
    ghost predicate Valid()
      reads this
    {
      (forall id :: id in reviews ==> reviews[id].id == id) &&
      (forall a, b :: (a in reviews && b in reviews && reviews[a].userId == reviews[b].userId &&
                      reviews[a].productId == reviews[b].productId) ==> a == b)
    }

    constructor(catalogue: map<string, Uuid>)
      ensures reviews == map[] && products == catalogue
      ensures Valid()
    {
      reviews := map[];
      products := catalogue;
    }

    /** CheckExists: the user has a review of the product. */
    predicate Reviewed(uid: Uuid, pid: Uuid)
      reads this
    {
      exists id :: id in reviews && reviews[id].userId == uid && reviews[id].productId == pid
    }

    /** The checks Create runs before opening its transaction, in order; on
        success, the author, the product and the completed order to cite. */
    function CreateCheck(userId: string, slug: string, rating: int, comment: string, f: CreateFaults)
      : (r: Result<(Uuid, Uuid, Uuid), Error>)
      reads this
      ensures r.Success? <==>
        Validate(rating, comment).None? && WellFormed(userId) && f.checks.product.None? && slug in products &&
        f.checks.existing.None? && !Reviewed(Parse(userId).value, products[slug]) &&
        f.checks.purchased == Success(true) && f.completedOrder.Success?
      ensures r.Success? ==> r.value == (Parse(userId).value, products[slug], f.completedOrder.value)
    {
      if Validate(rating, comment).Some? then Failure(Validate(rating, comment).value)
      else if !WellFormed(userId) then Failure(ReviewErrors.ErrInvalidReviewID)
      else
        var uid := Parse(userId).value;
        match Repo.Get(products, slug, f.checks.product)
        case Failure(e) => Failure(LookupError(e, ReviewErrors.ErrProductNotFound))
        case Success(pid) =>
          if f.checks.existing.Some? then Failure(ReviewErrors.ErrReviewFailed)
          else if Reviewed(uid, pid) then Failure(ReviewErrors.ErrReviewAlreadyExists)
          else if f.checks.purchased.Failure? then Failure(ReviewErrors.ErrReviewFailed)
          else if !f.checks.purchased.value then Failure(ReviewErrors.ErrNotPurchased)
          else if f.completedOrder.Failure? then Failure(ReviewErrors.ErrOrderNotCompleted)
          else Success((uid, pid, f.completedOrder.value))
    }

    /** The order of Create's guards: an existing review wins over a missing
        purchase, and a missing purchase over a missing completed order. */
    lemma CreateGuardOrder(userId: string, slug: string, rating: int, comment: string, f: CreateFaults)
      requires Validate(rating, comment).None? && WellFormed(userId)
      requires f.checks.product.None? && slug in products && f.checks.existing.None?
      ensures Reviewed(Parse(userId).value, products[slug]) ==>
        CreateCheck(userId, slug, rating, comment, f) == Failure(ReviewErrors.ErrReviewAlreadyExists)
      ensures !Reviewed(Parse(userId).value, products[slug]) && f.checks.purchased == Success(false) ==>
        CreateCheck(userId, slug, rating, comment, f) == Failure(ReviewErrors.ErrNotPurchased)
      ensures (!Reviewed(Parse(userId).value, products[slug]) && f.checks.purchased == Success(true) &&
        f.completedOrder.Failure?) ==>
        CreateCheck(userId, slug, rating, comment, f) == Failure(ReviewErrors.ErrOrderNotCompleted)
    {
    }

    /** Create: the guards, then the insert and commit in one transaction, then
        a read of the stored review. A failure of that last read is reported
        although the review is already committed. */
    method Create(userId: string, slug: string, rating: int, comment: string, newId: Uuid, f: CreateFaults)
      returns (r: Result<ReviewResponse, Error>)
      requires Valid()
      modifies this
      ensures Valid() && products == old(products)
      ensures old(CreateCheck(userId, slug, rating, comment, f)).Failure? ==>
        r == Failure(old(CreateCheck(userId, slug, rating, comment, f)).error) && reviews == old(reviews)
      ensures (old(CreateCheck(userId, slug, rating, comment, f)).Success? &&
        (f.begin.Some? || f.create.Some? || newId in old(reviews) || f.commit.Some?)) ==>
        r == Failure(ReviewErrors.ErrReviewFailed) && reviews == old(reviews)
      ensures (old(CreateCheck(userId, slug, rating, comment, f)).Success? &&
        f.begin.None? && f.create.None? && newId !in old(reviews) && f.commit.None?) ==>
        var (uid, pid, oid) := old(CreateCheck(userId, slug, rating, comment, f)).value;
        var rv := Review(newId, uid, pid, oid, rating, comment, true);
        reviews == old(reviews)[newId := rv] &&
        r == (if f.fetch.Failure? then Failure(ReviewErrors.ErrReviewFailed) else Success(ResponseOf(rv, f.fetch.value)))
    {
      var invalid := Validate(rating, comment);
      if invalid.Some? {
        return Failure(invalid.value);
      }
      if !WellFormed(userId) {
        return Failure(ReviewErrors.ErrInvalidReviewID);
      }
      var uid := Parse(userId).value;
      var product := Repo.Get(products, slug, f.checks.product);
      if product.Failure? {
        return Failure(LookupError(product.error, ReviewErrors.ErrProductNotFound));
      }
      var pid := product.value;
      if f.checks.existing.Some? {
        return Failure(ReviewErrors.ErrReviewFailed);
      }
      if Reviewed(uid, pid) {
        return Failure(ReviewErrors.ErrReviewAlreadyExists);
      }
      if f.checks.purchased.Failure? {
        return Failure(ReviewErrors.ErrReviewFailed);
      }
      if !f.checks.purchased.value {
        return Failure(ReviewErrors.ErrNotPurchased);
      }
      if f.completedOrder.Failure? {
        return Failure(ReviewErrors.ErrOrderNotCompleted);
      }
      var rv := Review(newId, uid, pid, f.completedOrder.value, rating, comment, true);
      r := Insert(rv, f);
    }

    /** The transaction of Create, for a review whose author has none of its product. */
    method Insert(rv: Review, f: CreateFaults) returns (r: Result<ReviewResponse, Error>)
      requires Valid() && !Reviewed(rv.userId, rv.productId)
      modifies this
      ensures Valid() && products == old(products)
      ensures f.begin.Some? || f.create.Some? || rv.id in old(reviews) || f.commit.Some? ==>
        r == Failure(ReviewErrors.ErrReviewFailed) && reviews == old(reviews)
      ensures f.begin.None? && f.create.None? && rv.id !in old(reviews) && f.commit.None? ==>
        reviews == old(reviews)[rv.id := rv] &&
        r == (if f.fetch.Failure? then Failure(ReviewErrors.ErrReviewFailed) else Success(ResponseOf(rv, f.fetch.value)))
    {
      if f.begin.Some? {
        return Failure(ReviewErrors.ErrReviewFailed);
      }
      var saved := reviews;
      if f.create.Some? || rv.id in reviews {
        return Failure(ReviewErrors.ErrReviewFailed);
      }
      reviews := reviews[rv.id := rv];
      if f.commit.Some? {
        reviews := saved;
        return Failure(ReviewErrors.ErrReviewFailed);
      }
      if f.fetch.Failure? {
        return Failure(ReviewErrors.ErrReviewFailed);
      }
      r := Success(ResponseOf(rv, f.fetch.value));
    }

    /** CheckEligibility. An empty user id is answered without touching any
        repository; otherwise the same product, review and purchase checks as
        Create, reported instead of refused. */
    function CheckEligibility(userId: string, slug: string, f: CheckFaults): (r: Result<Eligibility, Error>)
      reads this
      ensures userId == "" ==> r == Success(Anonymous)
      ensures r.Success? ==> (r.value.canReview <==> !r.value.alreadyReviewed && r.value.hasPurchased)
      ensures r.Success? && userId != "" ==>
        WellFormed(userId) && slug in products &&
        r.value.alreadyReviewed == Reviewed(Parse(userId).value, products[slug])
      ensures r.Success? && r.value.alreadyReviewed ==> r.value.hasPurchased
      ensures r.Success? && userId != "" && !r.value.alreadyReviewed ==>
        f.purchased.Success? && r.value.hasPurchased == f.purchased.value
    {
      if userId == "" then Success(Anonymous)
      else if !WellFormed(userId) then Failure(ReviewErrors.ErrInvalidReviewID)
      else
        var uid := Parse(userId).value;
        match Repo.Get(products, slug, f.product)
        case Failure(e) => Failure(LookupError(e, ReviewErrors.ErrProductNotFound))
        case Success(pid) =>
          if f.existing.Some? then Failure(ReviewErrors.ErrReviewFailed)
          else if Reviewed(uid, pid) then
            Success(Eligibility(false, "You have already reviewed this product", true, true))
          else if f.purchased.Failure? then Failure(ReviewErrors.ErrReviewFailed)
          else if !f.purchased.value then
            Success(Eligibility(false, "You must purchase this product before reviewing", false, false))
          else Success(Eligibility(true, "", true, false))
    }
    /** What CheckEligibility reports is what Create then decides: an eligible
        user is refused by Create only for a missing completed order (or a
        later fault), and Create's refusals for an existing review or a missing
        purchase are reported as such by CheckEligibility. */
    lemma EligibilityAgreesWithCreate(userId: string, slug: string, rating: int, comment: string, f: CreateFaults)
      requires userId != "" && Validate(rating, comment).None?
      ensures var e := CheckEligibility(userId, slug, f.checks);
        e.Success? && e.value.canReview ==>
          CreateCheck(userId, slug, rating, comment, f).Success? ||
          CreateCheck(userId, slug, rating, comment, f) == Failure(ReviewErrors.ErrOrderNotCompleted)
      ensures CreateCheck(userId, slug, rating, comment, f) == Failure(ReviewErrors.ErrReviewAlreadyExists) ==>
        CheckEligibility(userId, slug, f.checks) == Success(Eligibility(false, "You have already reviewed this product", true, true))
      ensures CreateCheck(userId, slug, rating, comment, f) == Failure(ReviewErrors.ErrNotPurchased) ==>
        var e := CheckEligibility(userId, slug, f.checks);
        e.Success? && !e.value.canReview && !e.value.hasPurchased
    {
    }

    /** The guard Update and Delete share: both ids parse, the review exists,
        and the caller wrote it. A miss is ErrReviewNotFound, any other read
        failure ErrReviewFailed, another author ErrUnauthorizedReview. */
    function Owned(reviewId: string, userId: string, get: Option<Error>): (r: Result<Review, Error>)
      reads this
      ensures !WellFormed(reviewId) || !WellFormed(userId) ==> r == Failure(ReviewErrors.ErrInvalidReviewID)
      ensures r.Success? <==>
        WellFormed(reviewId) && WellFormed(userId) && get.None? &&
        Parse(reviewId).value in reviews && reviews[Parse(reviewId).value].userId == Parse(userId).value
      ensures r.Success? ==> r.value == reviews[Parse(reviewId).value]
      ensures (WellFormed(reviewId) && WellFormed(userId) && get.None? && Parse(reviewId).value in reviews &&
        reviews[Parse(reviewId).value].userId != Parse(userId).value) ==>
        r == Failure(ReviewErrors.ErrUnauthorizedReview)
      ensures WellFormed(reviewId) && WellFormed(userId) && (get.Some? || Parse(reviewId).value !in reviews) ==>
        r == Failure(if get.Some? && get.value != ErrNoRows then ReviewErrors.ErrReviewFailed else ReviewErrors.ErrReviewNotFound)
    {
      if !WellFormed(reviewId) || !WellFormed(userId) then Failure(ReviewErrors.ErrInvalidReviewID)
      else
        var rid, uid := Parse(reviewId).value, Parse(userId).value;
        match Repo.Get(reviews, rid, get)
        case Failure(e) => Failure(LookupError(e, ReviewErrors.ErrReviewNotFound))
        case Success(rv) => if rv.userId != uid then Failure(ReviewErrors.ErrUnauthorizedReview) else Success(rv)
    }

    /** Update: validation, the owner guard, then the rewrite of rating and
        comment in one transaction, then a read of the stored review. */
    method Update(reviewId: string, userId: string, rating: int, comment: string, f: WriteFaults)
      returns (r: Result<ReviewResponse, Error>)
      requires Valid()
      modifies this
      ensures Valid() && products == old(products)
      ensures Validate(rating, comment).Some? ==>
        r == Failure(Validate(rating, comment).value) && reviews == old(reviews)
      ensures Validate(rating, comment).None? && old(Owned(reviewId, userId, f.get)).Failure? ==>
        r == Failure(old(Owned(reviewId, userId, f.get)).error) && reviews == old(reviews)
      ensures (Validate(rating, comment).None? && old(Owned(reviewId, userId, f.get)).Success? &&
        (f.begin.Some? || f.write.Some? || f.commit.Some?)) ==>
        r == Failure(ReviewErrors.ErrReviewFailed) && reviews == old(reviews)
      ensures (Validate(rating, comment).None? && old(Owned(reviewId, userId, f.get)).Success? &&
        f.begin.None? && f.write.None? && f.commit.None?) ==>
        var before := old(Owned(reviewId, userId, f.get)).value;
        var after := before.(rating := rating, comment := comment);
        reviews == old(reviews)[before.id := after] &&
        r == (if f.fetch.Failure? then Failure(ReviewErrors.ErrReviewFailed) else Success(ResponseOf(after, f.fetch.value)))
    {
      var invalid := Validate(rating, comment);
      if invalid.Some? {
        return Failure(invalid.value);
      }
      if !WellFormed(reviewId) || !WellFormed(userId) {
        return Failure(ReviewErrors.ErrInvalidReviewID);
      }
      var rid, uid := Parse(reviewId).value, Parse(userId).value;
      var found := Repo.Get(reviews, rid, f.get);
      if found.Failure? {
        return Failure(LookupError(found.error, ReviewErrors.ErrReviewNotFound));
      }
      if found.value.userId != uid {
        return Failure(ReviewErrors.ErrUnauthorizedReview);
      }
      if f.begin.Some? {
        return Failure(ReviewErrors.ErrReviewFailed);
      }
      var saved := reviews;
      if f.write.Some? {
        return Failure(ReviewErrors.ErrReviewFailed);
      }
      var after := found.value.(rating := rating, comment := comment);
      reviews := reviews[rid := after];
      if f.commit.Some? {
        reviews := saved;
        return Failure(ReviewErrors.ErrReviewFailed);
      }
      if f.fetch.Failure? {
        return Failure(ReviewErrors.ErrReviewFailed);
      }
      r := Success(ResponseOf(after, f.fetch.value));
    }

    /** Delete: the owner guard, then the removal in one transaction. */
    method Delete(reviewId: string, userId: string, f: WriteFaults) returns (e: Option<Error>)
      requires Valid()
      modifies this
      ensures Valid() && products == old(products)
      ensures old(Owned(reviewId, userId, f.get)).Failure? ==>
        e == Some(old(Owned(reviewId, userId, f.get)).error) && reviews == old(reviews)
      ensures old(Owned(reviewId, userId, f.get)).Success? && (f.begin.Some? || f.write.Some? || f.commit.Some?) ==>
        e == Some(ReviewErrors.ErrReviewFailed) && reviews == old(reviews)
      ensures old(Owned(reviewId, userId, f.get)).Success? && f.begin.None? && f.write.None? && f.commit.None? ==>
        e.None? && reviews == old(reviews) - {Parse(reviewId).value}
    {
      if !WellFormed(reviewId) || !WellFormed(userId) {
        return Some(ReviewErrors.ErrInvalidReviewID);
      }
      var rid, uid := Parse(reviewId).value, Parse(userId).value;
      var found := Repo.Get(reviews, rid, f.get);
      if found.Failure? {
        return Some(LookupError(found.error, ReviewErrors.ErrReviewNotFound));
      }
      if found.value.userId != uid {
        return Some(ReviewErrors.ErrUnauthorizedReview);
      }
      if f.begin.Some? || f.write.Some? {
        return Some(ReviewErrors.ErrReviewFailed);
      }
      var saved := reviews;
      reviews := reviews - {rid};
      if f.commit.Some? {
        reviews := saved;
        return Some(ReviewErrors.ErrReviewFailed);
      }
      e := None;
    }

    /** GetByProductSlug: the window is normalised first and echoed in the reply;
        the rows and the count come from queries this model does not see. */
    method GetByProductSlug(slug: string, page: int, limit: int, rows: seq<ReviewRow>, f: ListFaults)
      returns (sent: Option<(Uuid, Repo.Paging)>, r: Result<ReviewList<ReviewResponse>, Error>)
      ensures var w := Window(page, limit);
        (f.product.None? && slug in products ==> sent == Some((products[slug], Repo.PagingFor(w.page, w.limit)))) &&
        (r.Success? <==> f.product.None? && slug in products && f.list.None? && f.count.Success?) &&
        (r.Success? ==>
          r.value.page == w.page && r.value.limit == w.limit && r.value.total == f.count.value &&
          |r.value.reviews| == |rows| &&
          forall i :: 0 <= i < |rows| ==> r.value.reviews[i] == ResponseOf(rows[i].review, rows[i].userName))
      ensures f.product.Some? || slug !in products ==>
        sent.None? && r == Failure(LookupError(if f.product.Some? then f.product.value else ErrNoRows, ReviewErrors.ErrProductNotFound))
      ensures r.Failure? && sent.Some? ==> r.error == ReviewErrors.ErrReviewFailed
    {
      var w := Window(page, limit);
      var product := Repo.Get(products, slug, f.product);
      if product.Failure? {
        return None, Failure(LookupError(product.error, ReviewErrors.ErrProductNotFound));
      }
      sent := Some((product.value, Repo.PagingFor(w.page, w.limit)));
      if f.list.Some? || f.count.Failure? {
        return sent, Failure(ReviewErrors.ErrReviewFailed);
      }
      var res := MapReviewRows(rows);
      r := Success(ReviewList(res, f.count.value, w.page, w.limit));
    }

    /** GetByUserID: the user id must parse; then as GetByProductSlug. */
    method GetByUserID(userId: string, page: int, limit: int, rows: seq<UserReviewRow>, f: ListFaults)
      returns (sent: Option<(Uuid, Repo.Paging)>, r: Result<ReviewList<UserReviewResponse>, Error>)
      ensures !WellFormed(userId) ==> sent.None? && r == Failure(ReviewErrors.ErrInvalidReviewID)
      ensures var w := Window(page, limit);
        (WellFormed(userId) ==> sent == Some((Parse(userId).value, Repo.PagingFor(w.page, w.limit)))) &&
        (r.Success? <==> WellFormed(userId) && f.list.None? && f.count.Success?) &&
        (r.Success? ==>
          r.value.page == w.page && r.value.limit == w.limit && r.value.total == f.count.value &&
          |r.value.reviews| == |rows| &&
          forall i :: 0 <= i < |rows| ==> r.value.reviews[i] == UserResponseOf(rows[i]))
      ensures WellFormed(userId) && r.Failure? ==> r.error == ReviewErrors.ErrReviewFailed
    {
      if !WellFormed(userId) {
        return None, Failure(ReviewErrors.ErrInvalidReviewID);
      }
      var w := Window(page, limit);
      sent := Some((Parse(userId).value, Repo.PagingFor(w.page, w.limit)));
      if f.list.Some? || f.count.Failure? {
        return sent, Failure(ReviewErrors.ErrReviewFailed);
      }
      var res := MapUserRows(rows);
      r := Success(ReviewList(res, f.count.value, w.page, w.limit));
    }
  }
}
