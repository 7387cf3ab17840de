/** The table models `User`, `Book` and `Review`, `remove_timezone`, the
    JSON view of a user without its password hash, the foreign keys between
    the tables and the delete cascades the relationships declare. Times are
    integer seconds (naive UTC). */
module Models {
  import opened Results
  import opened Json
  import opened Passwords

  // ---------------------------------------------------------- remove_timezone

  /** A `datetime`; `tzinfo` is the UTC offset in seconds of an aware value. */
  datatype DateTime = DateTime(year: int, month: int, day: int, hour: int, minute: int,
                               second: int, microsecond: int, tzinfo: Option<int>)

  /** `remove_timezone(dt)`: drops the zone without converting the wall clock. */
  function RemoveTimezone(dt: DateTime): (r: DateTime)
    ensures r.tzinfo.None?
    ensures r.(tzinfo := dt.tzinfo) == dt
    ensures dt.tzinfo.None? ==> r == dt
  {
    if dt.tzinfo.Some? then dt.(tzinfo := None) else dt
  }

  lemma RemoveTimezoneIdempotent(dt: DateTime)
    ensures RemoveTimezone(RemoveTimezone(dt)) == RemoveTimezone(dt)
  {
  }

  // ------------------------------------------------------------------ records

  /** The `server_default` of `User.role`. */
  const DEFAULT_ROLE := "user"

  datatype User = User(id: string, username: string, email: string,
                       firstName: Option<string>, lastName: Option<string>,
                       role: string, isVerified: bool, passwordHash: PassHash,
                       createdAt: int, updatedAt: int)

  datatype Book = Book(id: string, title: string, author: string, publisher: string,
                       publishedDate: int, pageCount: int, language: string,
                       userId: Option<string>, createdAt: int, updatedAt: int)

  const RATING_MIN := 1
  const RATING_MAX := 5

  datatype Review = Review(id: string, rating: int, reviewText: string,
                           userId: Option<string>, bookId: Option<string>,
                           createdAt: int, updatedAt: int)

  /** The declared `Field(ge=1, le=5)` of `Review.rating`. */
  predicate RatingInRange(rating: int) {
    RATING_MIN <= rating <= RATING_MAX
  }

  function OptionalText(s: Option<string>): Json {
    if s.Some? then JStr(s.value) else JNull
  }

  /** The serialised user: every column but `password_hash`, which is `exclude=True`. */
  function UserJson(u: User): (r: Object)
    ensures "password_hash" !in r
    ensures r.Keys == {"id", "username", "email", "first_name", "last_name", "role",
                       "is_verified", "created_at", "updated_at"}
    ensures r["email"] == JStr(u.email) && r["role"] == JStr(u.role) && r["is_verified"] == JBool(u.isVerified)
  {
    map["id" := JStr(u.id), "username" := JStr(u.username), "email" := JStr(u.email),
        "first_name" := OptionalText(u.firstName), "last_name" := OptionalText(u.lastName),
        "role" := JStr(u.role), "is_verified" := JBool(u.isVerified),
        "created_at" := JInt(u.createdAt), "updated_at" := JInt(u.updatedAt)]
  }

  // -------------------------------------------------------- sequence helpers

  /** The rows of `s` that satisfy `keep`, in order. */
  function Filter<T(!new)>(s: seq<T>, keep: T -> bool): (r: seq<T>)
    ensures |r| <= |s|
    ensures forall x :: x in r <==> x in s && keep(x)
  {
    if s == [] then []
    else
      assert forall x :: x in s <==> x == s[0] || x in s[1..];
      (if keep(s[0]) then [s[0]] else []) + Filter(s[1..], keep)
  }

  /** The position of the first row satisfying `p`, as `.first()` returns it. */
  function FirstIndexWhere<T>(s: seq<T>, p: T -> bool): (r: Option<nat>)
    ensures r.Some? ==> r.value < |s| && p(s[r.value]) && forall j :: 0 <= j < r.value ==> !p(s[j])
    ensures r.None? ==> forall j :: 0 <= j < |s| ==> !p(s[j])
  {
    if s == [] then None
    else if p(s[0]) then Some(0)
    else
      var rest := FirstIndexWhere(s[1..], p);
      if rest.None? then None else Some(rest.value + 1)
  }

  function FirstWhere<T(!new)>(s: seq<T>, p: T -> bool): (r: Option<T>)
    ensures r.Some? ==> r.value in s && p(r.value)
    ensures r.None? ==> forall x :: x in s ==> !p(x)
  {
    var i := FirstIndexWhere(s, p);
    if i.None? then None else Some(s[i.value])
  }

  function UserByEmail(users: seq<User>, email: string): Option<User> {
    FirstWhere(users, (u: User) => u.email == email)
  }

  function UserByUsername(users: seq<User>, username: string): Option<User> {
    FirstWhere(users, (u: User) => u.username == username)
  }

  function BookById(books: seq<Book>, id: string): Option<Book> {
    FirstWhere(books, (b: Book) => b.id == id)
  }

  // ------------------------------------------------ foreign keys and cascades

  datatype Tables = Tables(users: seq<User>, books: seq<Book>, reviews: seq<Review>)

  function UserIds(users: seq<User>): set<string> {
    set u | u in users :: u.id
  }

  function BookIds(books: seq<Book>): set<string> {
    set b | b in books :: b.id
  }

  function ReviewIds(reviews: seq<Review>): set<string> {
    set v | v in reviews :: v.id
  }

  /** Every identifier in use, in any table. */
  function AllIds(t: Tables): set<string> {
    UserIds(t.users) + BookIds(t.books) + ReviewIds(t.reviews)
  }

  /** `id` is the primary key of each table: no two different rows share one. */
  predicate KeysUnique(t: Tables) {
    && (forall a, b :: a in t.users && b in t.users && a.id == b.id ==> a == b)
    && (forall a, b :: a in t.books && b in t.books && a.id == b.id ==> a == b)
    && (forall a, b :: a in t.reviews && b in t.reviews && a.id == b.id ==> a == b)
  }

  /** `Book.user_id`, `Review.user_id` and `Review.book_id` are foreign keys. */
  predicate ForeignKeysHold(t: Tables) {
    && (forall b :: b in t.books && b.userId.Some? ==> b.userId.value in UserIds(t.users))
    && (forall v :: v in t.reviews && v.userId.Some? ==> v.userId.value in UserIds(t.users))
    && (forall v :: v in t.reviews && v.bookId.Some? ==> v.bookId.value in BookIds(t.books))
  }

  /** Deleting a book takes its reviews with it (`cascade="all, delete-orphan"`). */
  function DeleteBookCascade(t: Tables, bookId: string): (r: Tables)
    ensures r.users == t.users
    ensures forall b :: b in r.books <==> b in t.books && b.id != bookId
    ensures forall v :: v in r.reviews <==> v in t.reviews && v.bookId != Some(bookId)
  {
    Tables(t.users,
           Filter(t.books, (b: Book) => b.id != bookId),
           Filter(t.reviews, (v: Review) => v.bookId != Some(bookId)))
  }

  /** Ids of the books a user owns. */
  function OwnedBookIds(books: seq<Book>, userId: string): set<string> {
    set b | b in books && b.userId == Some(userId) :: b.id
  }

  /** Deleting a user takes their books, the reviews of those books, and
      their own reviews with it. */
  function DeleteUserCascade(t: Tables, userId: string): (r: Tables)
    ensures forall u :: u in r.users <==> u in t.users && u.id != userId
    ensures forall b :: b in r.books <==> b in t.books && b.userId != Some(userId)
    ensures forall v :: v in r.reviews <==>
              (v in t.reviews && v.userId != Some(userId)
               && !(v.bookId.Some? && v.bookId.value in OwnedBookIds(t.books, userId)))
  {
    var doomed := OwnedBookIds(t.books, userId);
    Tables(Filter(t.users, (u: User) => u.id != userId),
           Filter(t.books, (b: Book) => b.userId != Some(userId)),
           Filter(t.reviews, (v: Review) => v.userId != Some(userId) && !(v.bookId.Some? && v.bookId.value in doomed)))
  }

  /** What the database enforces: unique primary keys and satisfied foreign keys. */
  predicate Integrity(t: Tables) {
    KeysUnique(t) && ForeignKeysHold(t)
  }

  lemma DeleteBookKeepsIntegrity(t: Tables, bookId: string)
    requires Integrity(t)
    ensures Integrity(DeleteBookCascade(t, bookId))
  {
    var r := DeleteBookCascade(t, bookId);
    forall v | v in r.reviews && v.bookId.Some?
      ensures v.bookId.value in BookIds(r.books)
    {
      var x := v.bookId.value;
      assert x in BookIds(t.books);
      var b :| b in t.books && b.id == x;
      assert b in r.books;
    }
  }

  lemma DeleteUserKeepsIntegrity(t: Tables, userId: string)
    requires Integrity(t)
    ensures Integrity(DeleteUserCascade(t, userId))
  {
    var r := DeleteUserCascade(t, userId);
    forall b | b in r.books && b.userId.Some?
      ensures b.userId.value in UserIds(r.users)
    {
      var u :| u in t.users && u.id == b.userId.value;
      assert u in r.users;
    }
    forall v | v in r.reviews && v.userId.Some?
      ensures v.userId.value in UserIds(r.users)
    {
      var u :| u in t.users && u.id == v.userId.value;
      assert u in r.users;
    }
    forall v | v in r.reviews && v.bookId.Some?
      ensures v.bookId.value in BookIds(r.books)
    {
      var b :| b in t.books && b.id == v.bookId.value;
      assert b.userId != Some(userId);
      assert b in r.books;
    }
  }
}
