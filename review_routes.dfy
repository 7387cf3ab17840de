/** The review router: `POST /book/{book_id}` depends on `get_current_user`
    only, so any holder of a valid access token may review, verified or not. */
module ReviewRoutes {
  import opened Results
  import opened Json
  import opened Ids
  import opened Models
  import opened Database
  import opened Guards
  import opened ReviewService
  import SessionTokens
  import Blocklist

  const NO_USER_EMAIL := "AttributeError: 'NoneType' object has no attribute 'email'"

  /** The author the service finds by the current user's address is a user
      of the same address, so its own 404 cannot be reached from the route. */
  lemma CurrentUserHasAddress(users: seq<User>, u: User)
    requires u in users
    ensures UserByEmail(users, u.email).Some? && UserByEmail(users, u.email).value.email == u.email
  {
  }

  /** The dependency `get_current_user` runs before the body is validated; a
      token whose address matches no user reaches the handler as `None`. */
  method AddReviewRoute(db: Session, ids: UuidSupply, cfg: SessionTokens.Config, creds: Option<SessionTokens.Token>,
                        now: int, bl: Blocklist.TokenBlocklist, bookId: string,
                        rating: int, reviewText: string, createdAt: Option<int>, fault: Fault)
    returns (r: Result<Review>)
    requires Tracked(db, ids)
    modifies db, ids
    ensures Tracked(db, ids)
    ensures r.Err? ==> db.Snapshot() == old(db.Snapshot())
    ensures old(CurrentUser(cfg, creds, now, bl, db.users)).Err? ==>
              r == old(CurrentUser(cfg, creds, now, bl, db.users)).PropagateFailure()
    ensures old(CurrentUser(cfg, creds, now, bl, db.users)).Ok? && !RatingInRange(rating) ==>
              r == Err(VALIDATION_FAILED)
    ensures old(CurrentUser(cfg, creds, now, bl, db.users)) == Ok(None) && RatingInRange(rating) ==>
              r == Err(Crash(NO_USER_EMAIL))
    ensures r != Err(Fail(NOT_FOUND, USER_MISSING))
    ensures r.Ok? <==> && old(CurrentUser(cfg, creds, now, bl, db.users)).Ok?
                       && old(CurrentUser(cfg, creds, now, bl, db.users)).value.Some?
                       && RatingInRange(rating) && fault == Healthy && BookById(old(db.books), bookId).Some?
    ensures r.Ok? ==> var author := old(CurrentUser(cfg, creds, now, bl, db.users)).value.value;
                      && db.reviews == old(db.reviews) + [r.value]
                      && db.users == old(db.users) && db.books == old(db.books)
                      && r.value.rating == rating && r.value.reviewText == reviewText
                      && r.value.bookId == Some(bookId)
                      && r.value.createdAt == (if createdAt.Some? then createdAt.value else now)
                      && r.value.userId == Some(UserByEmail(db.users, author.email).value.id)
                      && UserByEmail(db.users, author.email).value.email == author.email
  {
    var current :- CurrentUser(cfg, creds, now, bl, db.users);
    var body :- ParseReviewBody(rating, reviewText, createdAt, now);
    if current.None? {
      return Err(Crash(NO_USER_EMAIL));
    }
    CurrentUserHasAddress(db.users, current.value);
    r := AddReviewToBook(db, ids, current.value.email, bookId, body, now, fault);
  }
}
