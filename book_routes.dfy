/** The book router: every route depends on the access bearer and on a role
    checker (admins only for delete, admins and users for the rest), then
    hands over to `BookService`. */
module BookRoutes {
  import opened Results
  import opened Json
  import opened Ids
  import opened Models
  import opened Database
  import opened Guards
  import opened BookService
  import SessionTokens
  import Blocklist

  datatype BookRoute = ListBooks | GetUserBook | CreateBooks | GetBookDetail | DeleteBookRoute | UpdateBookRoute

  /** `role_checker_admin` guards delete; `role_checker_user` the others. */
  function AllowedRoles(route: BookRoute): seq<string> {
    if route == DeleteBookRoute then ["admin"] else ["admin", "user"]
  }

  /** Who gets past the role checker of a route. */
  lemma RolePolicy(route: BookRoute, u: User)
    ensures RoleCheck(AllowedRoles(route), Some(u)).Ok? <==>
              u.isVerified && (u.role == "admin" || (u.role == "user" && route != DeleteBookRoute))
  {
    assert "admin" in AllowedRoles(route);
    if route != DeleteBookRoute {
      assert AllowedRoles(route)[1] == "user";
    }
  }

  /** The dependencies of a book route, in declared order: `token_details`
      from the access bearer, then the role checker, whose own
      `get_current_user` runs the bearer again. The payload is handed on. */
  function Authorize(route: BookRoute, cfg: SessionTokens.Config, creds: Option<SessionTokens.Token>, now: int,
                     bl: Blocklist.TokenBlocklist, users: seq<User>): (r: Result<Object>)
    reads bl
    ensures r.Ok? <==> CurrentUser(cfg, creds, now, bl, users).Ok?
                       && RoleCheck(AllowedRoles(route), CurrentUser(cfg, creds, now, bl, users).value).Ok?
    ensures r.Ok? ==> r == Authenticate(Access, cfg, creds, now, bl)
    ensures Authenticate(Access, cfg, creds, now, bl).Err? ==> r == Authenticate(Access, cfg, creds, now, bl)
    ensures r.Err? ==> r.failure.Status() in {UNAUTHORIZED, FORBIDDEN, INTERNAL_SERVER_ERROR}
  {
    var claims :- Authenticate(Access, cfg, creds, now, bl);
    var current :- CurrentUser(cfg, creds, now, bl, users);
    var allowed :- RoleCheck(AllowedRoles(route), current);
    Ok(claims)
  }

  /** Only an admin's token opens the delete route; any verified user's
      opens the others. */
  lemma AuthorizedUser(route: BookRoute, cfg: SessionTokens.Config, creds: Option<SessionTokens.Token>, now: int,
                       bl: Blocklist.TokenBlocklist, users: seq<User>)
    requires Authorize(route, cfg, creds, now, bl, users).Ok?
    ensures var u := CurrentUser(cfg, creds, now, bl, users).value;
            && u.Some? && u.value in users && u.value.isVerified
            && JStr(u.value.email) == Lookup(Lookup(Authorize(route, cfg, creds, now, bl, users).value, "user").fields, "email")
            && (route == DeleteBookRoute ==> u.value.role == "admin")
  {
    var u := CurrentUser(cfg, creds, now, bl, users).value;
    RolePolicy(route, u.value);
    CurrentUserMatchesToken(cfg, creds, now, bl, users);
  }

  /** GET /: every book, newest first. */
  method ListBooksRoute(db: Session, cfg: SessionTokens.Config, creds: Option<SessionTokens.Token>, now: int,
                        bl: Blocklist.TokenBlocklist, fault: Fault)
    returns (r: Result<seq<Book>>)
    ensures Authorize(ListBooks, cfg, creds, now, bl, db.users).Err? ==>
              r == Authorize(ListBooks, cfg, creds, now, bl, db.users).PropagateFailure()
    ensures Authorize(ListBooks, cfg, creds, now, bl, db.users).Ok? && fault != ReadFails ==>
              r.Ok? && SortedDesc(r.value) && multiset(r.value) == multiset(db.books)
    ensures Authorize(ListBooks, cfg, creds, now, bl, db.users).Ok? && fault == ReadFails ==>
              r == Err(Fail(INTERNAL_SERVER_ERROR, FETCH_BOOKS_FAILED))
  {
    var claims :- Authorize(ListBooks, cfg, creds, now, bl, db.users);
    r := GetAllBooks(db, fault);
  }

  /** GET /user/{user_id}: that user's books, newest first. */
  method GetUserBookRoute(db: Session, cfg: SessionTokens.Config, creds: Option<SessionTokens.Token>, now: int,
                          bl: Blocklist.TokenBlocklist, userId: string, fault: Fault)
    returns (r: Result<seq<Book>>)
    ensures Authorize(GetUserBook, cfg, creds, now, bl, db.users).Err? ==>
              r == Authorize(GetUserBook, cfg, creds, now, bl, db.users).PropagateFailure()
    ensures Authorize(GetUserBook, cfg, creds, now, bl, db.users).Ok? && fault != ReadFails ==>
              r.Ok? && SortedDesc(r.value) && multiset(r.value) == multiset(OwnedBy(db.books, userId))
    ensures Authorize(GetUserBook, cfg, creds, now, bl, db.users).Ok? && fault == ReadFails ==>
              r == Err(Fail(INTERNAL_SERVER_ERROR, FETCH_BOOKS_FAILED))
  {
    var claims :- Authorize(GetUserBook, cfg, creds, now, bl, db.users);
    r := GetUserBooks(db, userId, fault);
  }

  /** POST /: the new book is owned by the token's `user_uid`. */
  method CreateBooksRoute(db: Session, ids: UuidSupply, cfg: SessionTokens.Config, creds: Option<SessionTokens.Token>,
                          now: int, bl: Blocklist.TokenBlocklist, data: BookCreateModel, fault: Fault)
    returns (r: Result<Book>)
    requires Tracked(db, ids)
    modifies db, ids
    ensures Tracked(db, ids)
    ensures old(Authorize(CreateBooks, cfg, creds, now, bl, db.users)).Err? ==>
              r == old(Authorize(CreateBooks, cfg, creds, now, bl, db.users)).PropagateFailure()
              && db.Snapshot() == old(db.Snapshot())
    ensures old(Authorize(CreateBooks, cfg, creds, now, bl, db.users)).Ok? ==>
              var info := Lookup(old(Authorize(CreateBooks, cfg, creds, now, bl, db.users)).value, "user");
              && info.JObj?
              && ("user_uid" !in info.fields ==> r.Err? && r.failure.Crash? && db.Snapshot() == old(db.Snapshot()))
              && ("user_uid" in info.fields ==>
                    && (r.Ok? <==> fault == Healthy && OwnerAccepted(info.fields["user_uid"], old(db.users)))
                    && (r.Err? ==> r == Err(Fail(INTERNAL_SERVER_ERROR, CREATE_FAILED)))
                    && ((fault == CommitFails || !OwnerAccepted(info.fields["user_uid"], old(db.users))) ==>
                          db.Snapshot() == old(db.Snapshot()))
                    && (fault != CommitFails && OwnerAccepted(info.fields["user_uid"], old(db.users)) ==>
                          && db.users == old(db.users) && db.reviews == old(db.reviews)
                          && |db.books| == |old(db.books)| + 1 && db.books[..|old(db.books)|] == old(db.books)
                          && NewBook(db.books[|old(db.books)|], data, OwnerColumn(info.fields["user_uid"]).value, now)))
    ensures r.Ok? ==> var claims := old(Authorize(CreateBooks, cfg, creds, now, bl, db.users));
                      && claims.Ok? && Lookup(claims.value, "user").JObj?
                      && "user_uid" in Lookup(claims.value, "user").fields
                      && OwnerColumn(Lookup(claims.value, "user").fields["user_uid"]) == Some(r.value.userId)
                      && db.books == old(db.books) + [r.value]
                      && db.users == old(db.users) && db.reviews == old(db.reviews)
                      && NewBook(r.value, data, r.value.userId, now)
                      && (r.value.userId.Some? ==> r.value.userId.value in UserIds(db.users))
  {
    var claims :- Authorize(CreateBooks, cfg, creds, now, bl, db.users);
    var info := Lookup(claims, "user");
    assert CurrentUserFromClaims(claims, db.users).Ok?;
    var fields := info.fields;
    if "user_uid" !in fields {
      return Err(Crash("KeyError: 'user_uid'"));
    }
    r := CreateBook(db, ids, data, fields["user_uid"], now, fault);
  }

  /** GET /{book_id}: the service answers a missing book with 500 itself, so
      the route's own 404 never fires. */
  method GetBookRoute(db: Session, cfg: SessionTokens.Config, creds: Option<SessionTokens.Token>, now: int,
                      bl: Blocklist.TokenBlocklist, bookId: string, fault: Fault)
    returns (r: Result<Book>)
    ensures Authorize(GetBookDetail, cfg, creds, now, bl, db.users).Err? ==>
              r == Authorize(GetBookDetail, cfg, creds, now, bl, db.users).PropagateFailure()
    ensures r.Ok? <==> Authorize(GetBookDetail, cfg, creds, now, bl, db.users).Ok?
                       && fault != ReadFails && BookById(db.books, bookId).Some?
    ensures r.Ok? ==> r.value in db.books && r.value.id == bookId
    ensures r.Err? ==> r.failure.Status() != NOT_FOUND
  {
    var claims :- Authorize(GetBookDetail, cfg, creds, now, bl, db.users);
    r := GetBook(db, bookId, fault);
  }

  /** DELETE /{book_id}: 204 with the service's message; admins only. */
  method DeleteBookRouteHandler(db: Session, cfg: SessionTokens.Config, creds: Option<SessionTokens.Token>, now: int,
                                bl: Blocklist.TokenBlocklist, bookId: string, fault: Fault)
    returns (r: Result<string>)
    requires db.Valid()
    modifies db
    ensures db.Valid()
    ensures old(Authorize(DeleteBookRoute, cfg, creds, now, bl, db.users)).Err? ==>
              r == old(Authorize(DeleteBookRoute, cfg, creds, now, bl, db.users)).PropagateFailure()
              && db.Snapshot() == old(db.Snapshot())
    ensures r.Err? ==> db.Snapshot() == old(db.Snapshot()) && r.failure.Status() != NOT_FOUND
    ensures r.Ok? <==> old(Authorize(DeleteBookRoute, cfg, creds, now, bl, db.users)).Ok?
                       && fault == Healthy && BookById(old(db.books), bookId).Some?
    ensures r.Ok? ==> r.value == DELETED && db.Snapshot() == DeleteBookCascade(old(db.Snapshot()), bookId)
  {
    var claims :- Authorize(DeleteBookRoute, cfg, creds, now, bl, db.users);
    r := DeleteBook(db, bookId, fault);
  }

  /** PATCH /{book_id}: any verified user may patch any book; ownership is not checked. */
  method UpdateBookRouteHandler(db: Session, cfg: SessionTokens.Config, creds: Option<SessionTokens.Token>, now: int,
                                bl: Blocklist.TokenBlocklist, bookId: string, u: BookUpdateModel, fault: Fault)
    returns (r: Result<Book>)
    requires db.Valid()
    modifies db
    ensures db.Valid()
    ensures old(Authorize(UpdateBookRoute, cfg, creds, now, bl, db.users)).Err? ==>
              r == old(Authorize(UpdateBookRoute, cfg, creds, now, bl, db.users)).PropagateFailure()
              && db.Snapshot() == old(db.Snapshot())
    ensures r.Err? ==> db.Snapshot() == old(db.Snapshot()) && r.failure.Status() != NOT_FOUND
    ensures r.Ok? <==> old(Authorize(UpdateBookRoute, cfg, creds, now, bl, db.users)).Ok?
                       && fault == Healthy && BookById(old(db.books), bookId).Some? && !SendsNull(u)
    ensures r.Ok? ==> r.value == Patched(BookById(old(db.books), bookId).value, u)
                      && db.books == ReplaceBookById(old(db.books), r.value)
                      && db.users == old(db.users) && db.reviews == old(db.reviews)
  {
    var claims :- Authorize(UpdateBookRoute, cfg, creds, now, bl, db.users);
    r := UpdateBook(db, bookId, u, fault);
  }
}
