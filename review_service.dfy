/** `ReviewService.add_review_to_book` and the `ReviewCreateModel` body it takes. */
module ReviewService {
  import opened Results
  import opened Ids
  import opened Models
  import opened Database
  import opened BookService

  const USER_MISSING := "User not found"
  /** The detail of the catch-all 500, up to the exception text it appends. */
  const REVIEW_FAILED := "An error occurred"

  /** The validated body: `created_at` already defaulted to the request time. */
  datatype ReviewCreateModel = ReviewCreateModel(rating: int, reviewText: string, createdAt: int)

  /** Pydantic's parse of the body: `rating` must lie in 1..5, a missing
      `created_at` takes the request time. */
  function ParseReviewBody(rating: int, reviewText: string, createdAt: Option<int>, now: int): (r: Result<ReviewCreateModel>)
    ensures r.Ok? <==> RatingInRange(rating)
    ensures r.Err? ==> r == Err(VALIDATION_FAILED)
    ensures r.Ok? ==> r.value.rating == rating && r.value.reviewText == reviewText
                      && r.value.createdAt == (if createdAt.Some? then createdAt.value else now)
  {
    if !RatingInRange(rating) then Err(VALIDATION_FAILED)
    else Ok(ReviewCreateModel(rating, reviewText, if createdAt.None? then now else createdAt.value))
  }

  /** `Review(**review_data.model_dump())` with its `user` and `book` set. */
  predicate NewReview(v: Review, data: ReviewCreateModel, userId: string, bookId: string, now: int) {
    && v.rating == data.rating && v.reviewText == data.reviewText
    && v.userId == Some(userId) && v.bookId == Some(bookId)
    && v.createdAt == data.createdAt && v.updatedAt == now
  }

  /** Appending a review with a fresh key whose links name existing rows
      keeps the tables consistent, and uses exactly one more identifier. */
  lemma AddReviewKeepsIntegrity(t: Tables, v: Review)
    requires Integrity(t)
    requires v.id !in ReviewIds(t.reviews)
    requires v.userId.Some? && v.userId.value in UserIds(t.users)
    requires v.bookId.Some? && v.bookId.value in BookIds(t.books)
    ensures Integrity(Tables(t.users, t.books, t.reviews + [v]))
    ensures AllIds(Tables(t.users, t.books, t.reviews + [v])) == AllIds(t) + {v.id}
  {
    var t' := Tables(t.users, t.books, t.reviews + [v]);
    assert ReviewIds(t'.reviews) == ReviewIds(t.reviews) + {v.id};
    forall a, b | a in t'.reviews && b in t'.reviews && a.id == b.id
      ensures a == b
    {
      if a != v && b != v {
        assert a in t.reviews && b in t.reviews;
      }
    }
  }

  /** The book is read first (its own errors pass through unchanged), then the
      author by e-mail; the review is committed with both links set. */
  method AddReviewToBook(db: Session, ids: UuidSupply, userEmail: string, bookId: string,
                         data: ReviewCreateModel, now: int, fault: Fault)
    returns (r: Result<Review>)
    requires Tracked(db, ids)
    modifies db, ids
    ensures Tracked(db, ids)
    ensures r.Err? ==> db.Snapshot() == old(db.Snapshot())
    ensures fault == ReadFails ==> r == Err(Fail(INTERNAL_SERVER_ERROR, FETCH_BOOK_FAILED))
    ensures fault != ReadFails && BookById(old(db.books), bookId).None? ==>
              r == Err(Fail(INTERNAL_SERVER_ERROR, BOOK_MISSING))
    ensures fault != ReadFails && BookById(old(db.books), bookId).Some? && UserByEmail(old(db.users), userEmail).None? ==>
              r == Err(Fail(NOT_FOUND, USER_MISSING))
    ensures fault == CommitFails && BookById(old(db.books), bookId).Some? && UserByEmail(old(db.users), userEmail).Some? ==>
              r == Err(Fail(INTERNAL_SERVER_ERROR, REVIEW_FAILED))
    ensures r.Ok? <==> fault == Healthy && BookById(old(db.books), bookId).Some?
                       && UserByEmail(old(db.users), userEmail).Some?
    ensures r.Ok? ==> && db.reviews == old(db.reviews) + [r.value]
                      && db.users == old(db.users) && db.books == old(db.books)
                      && r.value.id !in old(AllIds(db.Snapshot()))
                      && NewReview(r.value, data, UserByEmail(old(db.users), userEmail).value.id, bookId, now)
  {
    var book :- GetBook(db, bookId, fault);
    var user := UserByEmail(db.users, userEmail);
    if user.None? {
      return Err(Fail(NOT_FOUND, USER_MISSING));
    }
    var id := ids.Fresh();
    if fault == CommitFails {
      return Err(Fail(INTERNAL_SERVER_ERROR, REVIEW_FAILED));
    }
    var review := Review(id, data.rating, data.reviewText, Some(user.value.id), Some(book.id), data.createdAt, now);
    assert user.value.id in UserIds(db.users) && book.id in BookIds(db.books);
    AddReviewKeepsIntegrity(db.Snapshot(), review);
    db.Commit(Tables(db.users, db.books, db.reviews + [review]));
    r := Ok(review);
  }
}
