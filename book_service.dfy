/** `BookService`: listing, fetching, creating, patching and deleting rows
    of the book table through the request's database session. A parameter
    `fault` says whether the database server fails a read or the commit
    (a lost connection, a rejected statement); the error details keep the
    fixed prefix of each message and leave out the text of the exception. */
module BookService {
  import opened Results
  import opened Json
  import opened Ids
  import opened Models
  import opened Database

  const FETCH_BOOKS_FAILED := "Failed to fetch books"
  /** `get_book`'s 404 caught by its own `except Exception` and re-raised as a 500. */
  const BOOK_MISSING := "Failed to fetch book: 404: Book not found"
  const FETCH_BOOK_FAILED := "Failed to fetch book"
  const CREATE_FAILED := "Failed to create book"
  const UPDATE_FAILED := "Failed to update book"
  const DELETE_FAILED := "Failed to delete book"
  const DELETED := "Book deleted successfully"

  // --------------------------------------------------------------- ordering

  /** `order_by(desc(Book.created_at))`: newest first. */
  predicate SortedDesc(s: seq<Book>) {
    forall i, j :: 0 <= i < j < |s| ==> s[i].createdAt >= s[j].createdAt
  }

  /** Places `b` into a newest-first sequence, before the first book no newer than it. */
  function InsertDesc(s: seq<Book>, b: Book): seq<Book> {
    if s == [] || s[0].createdAt <= b.createdAt then [b] + s
    else [s[0]] + InsertDesc(s[1..], b)
  }

  /** Inserting adds exactly that book. */
  lemma {:induction false} InsertDescPermutes(s: seq<Book>, b: Book)
    ensures multiset(InsertDesc(s, b)) == multiset(s) + multiset{b}
  {
    if s != [] && s[0].createdAt > b.createdAt {
      InsertDescPermutes(s[1..], b);
      assert s == [s[0]] + s[1..];
    }
  }

  /** Inserting keeps a sequence newest-first. */
  lemma {:induction false} InsertDescSorted(s: seq<Book>, b: Book)
    requires SortedDesc(s)
    ensures SortedDesc(InsertDesc(s, b))
  {
    if s == [] || s[0].createdAt <= b.createdAt {
      ConsSorted(b, s);
    } else {
      var rest := InsertDesc(s[1..], b);
      InsertDescSorted(s[1..], b);
      InsertDescPermutes(s[1..], b);
      forall y | y in rest ensures y.createdAt <= s[0].createdAt {
        assert y in multiset(rest);
        if y != b {
          assert y in multiset(s[1..]);
          var k :| 0 <= k < |s[1..]| && s[1..][k] == y;
          assert s[k + 1] == y;
        }
      }
      ConsSorted(s[0], rest);
    }
  }

  /** A book no older than anything in a newest-first sequence may go in front. */
  lemma ConsSorted(x: Book, t: seq<Book>)
    requires SortedDesc(t)
    requires forall y :: y in t ==> y.createdAt <= x.createdAt
    ensures SortedDesc([x] + t)
  {
    var r := [x] + t;
    forall i, j | 0 <= i < j < |r| ensures r[i].createdAt >= r[j].createdAt {
      if i > 0 {
        assert r[i] == t[i - 1] && r[j] == t[j - 1];
      } else {
        assert r[j] in t;
      }
    }
  }

  /** The rows `Book.user_id == user_id` selects, in table order. */
  function OwnedBy(books: seq<Book>, userId: string): (r: seq<Book>)
    ensures forall b :: b in r <==> b in books && b.userId == Some(userId)
  {
    if books == [] then []
    else
      var last := books[|books| - 1];
      assert books == books[..|books| - 1] + [last];
      OwnedBy(books[..|books| - 1], userId) + (if last.userId == Some(userId) then [last] else [])
  }

  /** One more row of the table adds that row to the selection when it matches. */
  lemma OwnedByStep(books: seq<Book>, i: nat, userId: string)
    requires i < |books|
    ensures OwnedBy(books[..i + 1], userId)
            == OwnedBy(books[..i], userId) + (if books[i].userId == Some(userId) then [books[i]] else [])
  {
    assert books[..i + 1][..i] == books[..i];
  }

  /** Two sequences with the same multiset have the same members. */
  lemma SameMembers(a: seq<Book>, b: seq<Book>)
    requires multiset(a) == multiset(b)
    ensures forall x :: x in a <==> x in b
  {
    forall x ensures x in a <==> x in b {
      assert x in a <==> x in multiset(a);
      assert x in b <==> x in multiset(b);
    }
  }

  // ----------------------------------------------------------------- queries

  /** `get_all_books`: every book, newest first. */
  method GetAllBooks(db: Session, fault: Fault) returns (r: Result<seq<Book>>)
    ensures fault == ReadFails ==> r == Err(Fail(INTERNAL_SERVER_ERROR, FETCH_BOOKS_FAILED))
    ensures fault != ReadFails ==> r.Ok? && SortedDesc(r.value) && multiset(r.value) == multiset(db.books)
  {
    if fault == ReadFails {
      return Err(Fail(INTERNAL_SERVER_ERROR, FETCH_BOOKS_FAILED));
    }
    var books := db.books;
    var acc: seq<Book> := [];
    var i := 0;
    while i < |books|
      invariant 0 <= i <= |books|
      invariant SortedDesc(acc)
      invariant multiset(acc) == multiset(books[..i])
    {
      assert books[..i + 1] == books[..i] + [books[i]];
      InsertDescSorted(acc, books[i]);
      InsertDescPermutes(acc, books[i]);
      acc := InsertDesc(acc, books[i]);
      i := i + 1;
    }
    assert books[..i] == books;
    r := Ok(acc);
  }

  /** `get_user_books`: the user's books, newest first. */
  method GetUserBooks(db: Session, userId: string, fault: Fault) returns (r: Result<seq<Book>>)
    ensures fault == ReadFails ==> r == Err(Fail(INTERNAL_SERVER_ERROR, FETCH_BOOKS_FAILED))
    ensures fault != ReadFails ==> r.Ok? && SortedDesc(r.value) && multiset(r.value) == multiset(OwnedBy(db.books, userId))
    ensures r.Ok? ==> forall b :: b in r.value <==> b in db.books && b.userId == Some(userId)
  {
    if fault == ReadFails {
      return Err(Fail(INTERNAL_SERVER_ERROR, FETCH_BOOKS_FAILED));
    }
    var books := db.books;
    var acc: seq<Book> := [];
    var i := 0;
    while i < |books|
      invariant 0 <= i <= |books|
      invariant SortedDesc(acc)
      invariant multiset(acc) == multiset(OwnedBy(books[..i], userId))
    {
      OwnedByStep(books, i, userId);
      if books[i].userId == Some(userId) {
        InsertDescSorted(acc, books[i]);
        InsertDescPermutes(acc, books[i]);
        acc := InsertDesc(acc, books[i]);
      }
      i := i + 1;
    }
    assert books[..i] == books;
    SameMembers(acc, OwnedBy(books, userId));
    r := Ok(acc);
  }

  /** `get_book`: a missing book surfaces as a 500 wrapping the 404. */
  method GetBook(db: Session, bookId: string, fault: Fault) returns (r: Result<Book>)
    ensures fault == ReadFails ==> r == Err(Fail(INTERNAL_SERVER_ERROR, FETCH_BOOK_FAILED))
    ensures fault != ReadFails && BookById(db.books, bookId).None? ==> r == Err(Fail(INTERNAL_SERVER_ERROR, BOOK_MISSING))
    ensures r.Ok? <==> fault != ReadFails && BookById(db.books, bookId).Some?
    ensures r.Ok? ==> r.value in db.books && r.value.id == bookId
    ensures r.Err? ==> r.failure.Status() == INTERNAL_SERVER_ERROR
  {
    if fault == ReadFails {
      return Err(Fail(INTERNAL_SERVER_ERROR, FETCH_BOOK_FAILED));
    }
    var book := BookById(db.books, bookId);
    if book.None? {
      return Err(Fail(INTERNAL_SERVER_ERROR, BOOK_MISSING));
    }
    r := Ok(book.value);
  }

  // ------------------------------------------------------------------ create

  /** The `BookCreateModel` body. */
  datatype BookCreateModel = BookCreateModel(title: string, author: string, publisher: string,
                                             publishedDate: int, pageCount: int, language: string)

  /** The `user_id` column as the commit sees the value the route passed: a
      string names a user, None leaves the book without an owner, anything
      else is refused at the commit. */
  function OwnerColumn(userId: Json): Option<Option<string>> {
    match userId
    case JStr(s) => Some(Some(s))
    case JNull => Some(None)
    case _ => None
  }

  /** Whether the commit of a new book with this `user_id` value is accepted. */
  predicate OwnerAccepted(userId: Json, users: seq<User>) {
    OwnerColumn(userId).Some? && (OwnerColumn(userId).value.Some? ==> OwnerColumn(userId).value.value in UserIds(users))
  }

  /** `create_book(book_data, user_id)`: one new row, or a rolled-back
      session. When only the `refresh` after the commit fails, the row stays
      although the client is told 500. */
  method CreateBook(db: Session, ids: UuidSupply, data: BookCreateModel, userId: Json, now: int, fault: Fault)
    returns (r: Result<Book>)
    requires Tracked(db, ids)
    modifies db, ids
    ensures Tracked(db, ids)
    ensures r.Ok? <==> fault == Healthy && OwnerAccepted(userId, old(db.users))
    ensures r.Err? ==> r == Err(Fail(INTERNAL_SERVER_ERROR, CREATE_FAILED))
    ensures (fault == CommitFails || !OwnerAccepted(userId, old(db.users))) ==> db.Snapshot() == old(db.Snapshot())
    ensures fault != CommitFails && OwnerAccepted(userId, old(db.users)) ==>
              && |db.books| == |old(db.books)| + 1 && db.books[..|old(db.books)|] == old(db.books)
              && db.users == old(db.users) && db.reviews == old(db.reviews)
              && NewBook(db.books[|old(db.books)|], data, OwnerColumn(userId).value, now)
              && db.books[|old(db.books)|].id !in old(AllIds(db.Snapshot()))
    ensures r.Ok? ==> db.books == old(db.books) + [r.value]
  {
    var id := ids.Fresh();
    var owner := OwnerColumn(userId);
    if owner.None? || (owner.value.Some? && owner.value.value !in UserIds(db.users)) || fault == CommitFails {
      return Err(Fail(INTERNAL_SERVER_ERROR, CREATE_FAILED));
    }
    var book := Book(id, data.title, data.author, data.publisher, data.publishedDate, data.pageCount,
                     data.language, owner.value, now, now);
    AddBookKeepsIntegrity(db.Snapshot(), book);
    db.Commit(Tables(db.users, db.books + [book], db.reviews));
    assert db.books[..|old(db.books)|] == old(db.books);
    if fault == ReadFails {
      return Err(Fail(INTERNAL_SERVER_ERROR, CREATE_FAILED));
    }
    r := Ok(book);
  }

  /** Appending a book with a fresh key whose owner, if any, exists keeps
      the tables consistent, and uses exactly one more identifier. */
  lemma AddBookKeepsIntegrity(t: Tables, b: Book)
    requires Integrity(t)
    requires b.id !in BookIds(t.books)
    requires b.userId.Some? ==> b.userId.value in UserIds(t.users)
    ensures Integrity(Tables(t.users, t.books + [b], t.reviews))
    ensures AllIds(Tables(t.users, t.books + [b], t.reviews)) == AllIds(t) + {b.id}
  {
    var t' := Tables(t.users, t.books + [b], t.reviews);
    assert BookIds(t'.books) == BookIds(t.books) + {b.id};
    forall a, c | a in t'.books && c in t'.books && a.id == c.id
      ensures a == c
    {
      if a != b && c != b {
        assert a in t.books && c in t.books;
      }
    }
  }

  /** The row `Book(**book_data)` with `user_id` set, created at `now`. */
  predicate NewBook(b: Book, data: BookCreateModel, owner: Option<string>, now: int) {
    && b.title == data.title && b.author == data.author && b.publisher == data.publisher
    && b.publishedDate == data.publishedDate && b.pageCount == data.pageCount
    && b.language == data.language && b.userId == owner
    && b.createdAt == now && b.updatedAt == now
  }

  // ------------------------------------------------------------------ update

  /** One field of `BookUpdateModel`: left out of the body, or sent (possibly as null). */
  datatype Patch<T> = Unset | SetTo(value: Option<T>)

  datatype BookUpdateModel = BookUpdateModel(title: Patch<string>, author: Patch<string>,
                                             publisher: Patch<string>, publishedDate: Patch<int>,
                                             pageCount: Patch<int>, language: Patch<string>)

  /** One `(key, value)` of `model_dump(exclude_unset=True)`. */
  datatype FieldUpdate =
    | Title(text: Option<string>)
    | Author(text: Option<string>)
    | Publisher(text: Option<string>)
    | PublishedDate(number: Option<int>)
    | PageCount(number: Option<int>)
    | Language(text: Option<string>)
  {
    predicate IsNull() {
      if Title? || Author? || Publisher? || Language? then text.None? else number.None?
    }
  }

  /** The value of a sent field (a field left out has none). */
  function Sent<T>(p: Patch<T>): Option<T> {
    if p.SetTo? then p.value else None
  }

  function Emit(sent: bool, f: FieldUpdate): seq<FieldUpdate> {
    if sent then [f] else []
  }

  /** `model_dump(exclude_unset=True).items()`: the sent fields in declared order. */
  function Assigned(u: BookUpdateModel): seq<FieldUpdate> {
    Emit(u.title.SetTo?, Title(Sent(u.title)))
    + Emit(u.author.SetTo?, Author(Sent(u.author)))
    + Emit(u.publisher.SetTo?, Publisher(Sent(u.publisher)))
    + Emit(u.publishedDate.SetTo?, PublishedDate(Sent(u.publishedDate)))
    + Emit(u.pageCount.SetTo?, PageCount(Sent(u.pageCount)))
    + Emit(u.language.SetTo?, Language(Sent(u.language)))
  }

  predicate AnyNull(fs: seq<FieldUpdate>) {
    exists f :: f in fs && f.IsNull()
  }

  /** `setattr(book, key, value)` for a non-null value; a null leaves the
      row it will be committed over unchanged, as the commit fails. */
  function SetAttr(b: Book, f: FieldUpdate): Book {
    match f
    case Title(v) => if v.Some? then b.(title := v.value) else b
    case Author(v) => if v.Some? then b.(author := v.value) else b
    case Publisher(v) => if v.Some? then b.(publisher := v.value) else b
    case PublishedDate(v) => if v.Some? then b.(publishedDate := v.value) else b
    case PageCount(v) => if v.Some? then b.(pageCount := v.value) else b
    case Language(v) => if v.Some? then b.(language := v.value) else b
  }

  /** The `for` loop of `update_book` over the first `|fs|` items. */
  function SetAll(b: Book, fs: seq<FieldUpdate>): Book {
    if fs == [] then b else SetAttr(SetAll(b, fs[..|fs| - 1]), fs[|fs| - 1])
  }

  function Pick<T>(p: Patch<T>, current: T): T {
    if p.SetTo? && p.value.Some? then p.value.value else current
  }

  /** What a PATCH means, field by field: each sent value replaces the old one. */
  function Patched(b: Book, u: BookUpdateModel): Book {
    b.(title := Pick(u.title, b.title), author := Pick(u.author, b.author),
       publisher := Pick(u.publisher, b.publisher), publishedDate := Pick(u.publishedDate, b.publishedDate),
       pageCount := Pick(u.pageCount, b.pageCount), language := Pick(u.language, b.language))
  }

  /** Some field was sent as an explicit null: every column it can name is NOT NULL. */
  predicate SendsNull(u: BookUpdateModel) {
    (u.title.SetTo? && u.title.value.None?) || (u.author.SetTo? && u.author.value.None?)
    || (u.publisher.SetTo? && u.publisher.value.None?) || (u.publishedDate.SetTo? && u.publishedDate.value.None?)
    || (u.pageCount.SetTo? && u.pageCount.value.None?) || (u.language.SetTo? && u.language.value.None?)
  }

  /** One more (possibly absent) item after `fs`. */
  lemma SetAllThenEmit(b: Book, fs: seq<FieldUpdate>, sent: bool, f: FieldUpdate)
    ensures SetAll(b, fs + Emit(sent, f)) == if sent then SetAttr(SetAll(b, fs), f) else SetAll(b, fs)
  {
    var gs := fs + Emit(sent, f);
    if sent {
      assert gs[..|gs| - 1] == fs;
    } else {
      assert gs == fs;
    }
  }

  // One lemma per field: sending (or not sending) it after `fs` sets that column as `Pick` says.

  lemma StepTitle(b: Book, fs: seq<FieldUpdate>, p: Patch<string>)
    ensures var x := SetAll(b, fs);
            SetAll(b, fs + Emit(p.SetTo?, Title(Sent(p)))) == x.(title := Pick(p, x.title))
  {
    SetAllThenEmit(b, fs, p.SetTo?, Title(Sent(p)));
  }

  lemma StepAuthor(b: Book, fs: seq<FieldUpdate>, p: Patch<string>)
    ensures var x := SetAll(b, fs);
            SetAll(b, fs + Emit(p.SetTo?, Author(Sent(p)))) == x.(author := Pick(p, x.author))
  {
    SetAllThenEmit(b, fs, p.SetTo?, Author(Sent(p)));
  }

  lemma StepPublisher(b: Book, fs: seq<FieldUpdate>, p: Patch<string>)
    ensures var x := SetAll(b, fs);
            SetAll(b, fs + Emit(p.SetTo?, Publisher(Sent(p)))) == x.(publisher := Pick(p, x.publisher))
  {
    SetAllThenEmit(b, fs, p.SetTo?, Publisher(Sent(p)));
  }

  lemma StepPublishedDate(b: Book, fs: seq<FieldUpdate>, p: Patch<int>)
    ensures var x := SetAll(b, fs);
            SetAll(b, fs + Emit(p.SetTo?, PublishedDate(Sent(p)))) == x.(publishedDate := Pick(p, x.publishedDate))
  {
    SetAllThenEmit(b, fs, p.SetTo?, PublishedDate(Sent(p)));
  }

  lemma StepPageCount(b: Book, fs: seq<FieldUpdate>, p: Patch<int>)
    ensures var x := SetAll(b, fs);
            SetAll(b, fs + Emit(p.SetTo?, PageCount(Sent(p)))) == x.(pageCount := Pick(p, x.pageCount))
  {
    SetAllThenEmit(b, fs, p.SetTo?, PageCount(Sent(p)));
  }

  lemma StepLanguage(b: Book, fs: seq<FieldUpdate>, p: Patch<string>)
    ensures var x := SetAll(b, fs);
            SetAll(b, fs + Emit(p.SetTo?, Language(Sent(p)))) == x.(language := Pick(p, x.language))
  {
    SetAllThenEmit(b, fs, p.SetTo?, Language(Sent(p)));
  }

  /** The loop over the sent items does exactly what the PATCH means. */
  lemma SetAllAssigned(b: Book, u: BookUpdateModel)
    ensures SetAll(b, Assigned(u)) == Patched(b, u)
  {
    var e1, e2, e3 := Emit(u.title.SetTo?, Title(Sent(u.title))), Emit(u.author.SetTo?, Author(Sent(u.author))),
                      Emit(u.publisher.SetTo?, Publisher(Sent(u.publisher)));
    var e4, e5 := Emit(u.publishedDate.SetTo?, PublishedDate(Sent(u.publishedDate))),
                  Emit(u.pageCount.SetTo?, PageCount(Sent(u.pageCount)));
    var e6 := Emit(u.language.SetTo?, Language(Sent(u.language)));
    assert Assigned(u) == e1 + e2 + e3 + e4 + e5 + e6;
    assert [] + e1 == e1;
    StepTitle(b, [], u.title);
    StepAuthor(b, e1, u.author);
    StepPublisher(b, e1 + e2, u.publisher);
    StepPublishedDate(b, e1 + e2 + e3, u.publishedDate);
    StepPageCount(b, e1 + e2 + e3 + e4, u.pageCount);
    StepLanguage(b, e1 + e2 + e3 + e4 + e5, u.language);
  }

  lemma AnyNullConcat(a: seq<FieldUpdate>, b: seq<FieldUpdate>)
    ensures AnyNull(a + b) <==> AnyNull(a) || AnyNull(b)
  {
    if AnyNull(a + b) {
      var f :| f in a + b && f.IsNull();
      assert f in a || f in b;
    }
    if AnyNull(a) {
      var f :| f in a && f.IsNull();
      assert f in a + b;
    }
    if AnyNull(b) {
      var f :| f in b && f.IsNull();
      assert f in a + b;
    }
  }

  lemma AnyNullEmit(sent: bool, f: FieldUpdate)
    ensures AnyNull(Emit(sent, f)) <==> sent && f.IsNull()
  {
    if sent {
      assert f in Emit(sent, f);
    }
  }

  /** The loop meets a null exactly when the body sends one. */
  lemma AnyNullAssigned(u: BookUpdateModel)
    ensures AnyNull(Assigned(u)) <==> SendsNull(u)
  {
    var f1, f2, f3 := Title(Sent(u.title)), Author(Sent(u.author)), Publisher(Sent(u.publisher));
    var f4, f5, f6 := PublishedDate(Sent(u.publishedDate)), PageCount(Sent(u.pageCount)), Language(Sent(u.language));
    var e1, e2, e3 := Emit(u.title.SetTo?, f1), Emit(u.author.SetTo?, f2), Emit(u.publisher.SetTo?, f3);
    var e4, e5, e6 := Emit(u.publishedDate.SetTo?, f4), Emit(u.pageCount.SetTo?, f5), Emit(u.language.SetTo?, f6);
    assert Assigned(u) == e1 + e2 + e3 + e4 + e5 + e6;
    AnyNullConcat(e1 + e2 + e3 + e4 + e5, e6);
    AnyNullConcat(e1 + e2 + e3 + e4, e5);
    AnyNullConcat(e1 + e2 + e3, e4);
    AnyNullConcat(e1 + e2, e3);
    AnyNullConcat(e1, e2);
    AnyNullEmit(u.title.SetTo?, f1);
    AnyNullEmit(u.author.SetTo?, f2);
    AnyNullEmit(u.publisher.SetTo?, f3);
    AnyNullEmit(u.publishedDate.SetTo?, f4);
    AnyNullEmit(u.pageCount.SetTo?, f5);
    AnyNullEmit(u.language.SetTo?, f6);
  }

  /** The `for key, value in ...: setattr(...)` loop: the book as the items
      leave it, and whether one of them was a null. */
  method SetAttrs(b: Book, items: seq<FieldUpdate>) returns (book: Book, sawNull: bool)
    ensures book == SetAll(b, items)
    ensures sawNull <==> AnyNull(items)
  {
    book, sawNull := b, false;
    var i := 0;
    while i < |items|
      invariant 0 <= i <= |items|
      invariant book == SetAll(b, items[..i])
      invariant sawNull <==> AnyNull(items[..i])
    {
      SetAllThenEmit(b, items[..i], true, items[i]);
      assert items[..i + 1] == items[..i] + Emit(true, items[i]);
      sawNull := sawNull || items[i].IsNull();
      book := SetAttr(book, items[i]);
      i := i + 1;
    }
    assert items[..i] == items;
  }

  /** A body with no field sent changes nothing. */
  lemma EmptyPatchChangesNothing(b: Book)
    ensures Patched(b, BookUpdateModel(Unset, Unset, Unset, Unset, Unset, Unset)) == b
  {
  }

  /** Sending the same PATCH twice is the same as sending it once. */
  lemma PatchIdempotent(b: Book, u: BookUpdateModel)
    ensures Patched(Patched(b, u), u) == Patched(b, u)
  {
  }

  /** A PATCH never changes the key, the owner or the timestamps. */
  lemma PatchKeepsIdentity(b: Book, u: BookUpdateModel)
    ensures Patched(b, u).id == b.id && Patched(b, u).userId == b.userId
    ensures Patched(b, u).createdAt == b.createdAt && Patched(b, u).updatedAt == b.updatedAt
  {
  }

  /** The book table after the row with `updated`'s id is written over. */
  function ReplaceBookById(books: seq<Book>, updated: Book): (r: seq<Book>)
    ensures |r| == |books|
    ensures forall i :: 0 <= i < |r| ==> r[i] == (if books[i].id == updated.id then updated else books[i])
  {
    seq(|books|, i requires 0 <= i < |books| => if books[i].id == updated.id then updated else books[i])
  }

  lemma ReplaceBookKeepsIntegrity(t: Tables, old_: Book, updated: Book)
    requires Integrity(t) && old_ in t.books
    requires updated.id == old_.id && updated.userId == old_.userId
    ensures Integrity(Tables(t.users, ReplaceBookById(t.books, updated), t.reviews))
  {
    var r := ReplaceBookById(t.books, updated);
    assert forall b :: b in r ==> b == updated || (b in t.books && b.id != updated.id);
    forall x | x in BookIds(t.books) ensures x in BookIds(r) {
      var i :| 0 <= i < |t.books| && t.books[i].id == x;
      assert r[i].id == x;
    }
  }

  /** `update_book(book_id, update_data)`. */
  method UpdateBook(db: Session, bookId: string, u: BookUpdateModel, fault: Fault) returns (r: Result<Book>)
    requires db.Valid()
    modifies db
    ensures db.Valid()
    ensures fault == ReadFails ==> r == Err(Fail(INTERNAL_SERVER_ERROR, FETCH_BOOK_FAILED))
    ensures fault != ReadFails && BookById(old(db.books), bookId).None? ==>
              r == Err(Fail(INTERNAL_SERVER_ERROR, BOOK_MISSING))
    ensures fault != ReadFails && BookById(old(db.books), bookId).Some? && (fault == CommitFails || SendsNull(u)) ==>
              r == Err(Fail(INTERNAL_SERVER_ERROR, UPDATE_FAILED))
    ensures r.Err? ==> db.Snapshot() == old(db.Snapshot())
    ensures r.Ok? <==> fault == Healthy && BookById(old(db.books), bookId).Some? && !SendsNull(u)
    ensures r.Ok? ==> r.value == Patched(BookById(old(db.books), bookId).value, u)
                      && db.books == ReplaceBookById(old(db.books), r.value)
                      && db.users == old(db.users) && db.reviews == old(db.reviews)
  {
    var found := GetBook(db, bookId, fault);
    if found.Err? {
      return Err(found.failure);
    }
    var book, sawNull := SetAttrs(found.value, Assigned(u));
    SetAllAssigned(found.value, u);
    AnyNullAssigned(u);
    if sawNull || fault == CommitFails {
      return Err(Fail(INTERNAL_SERVER_ERROR, UPDATE_FAILED));
    }
    ReplaceBookKeepsIntegrity(db.Snapshot(), found.value, book);
    db.Commit(Tables(db.users, ReplaceBookById(db.books, book), db.reviews));
    r := Ok(book);
  }

  // ------------------------------------------------------------------ delete

  /** `delete_book(book_id)`: the row goes, and its reviews with it. */
  method DeleteBook(db: Session, bookId: string, fault: Fault) returns (r: Result<string>)
    requires db.Valid()
    modifies db
    ensures db.Valid()
    ensures fault == ReadFails ==> r == Err(Fail(INTERNAL_SERVER_ERROR, FETCH_BOOK_FAILED))
    ensures fault != ReadFails && BookById(old(db.books), bookId).None? ==>
              r == Err(Fail(INTERNAL_SERVER_ERROR, BOOK_MISSING))
    ensures fault == CommitFails && BookById(old(db.books), bookId).Some? ==>
              r == Err(Fail(INTERNAL_SERVER_ERROR, DELETE_FAILED))
    ensures r.Err? ==> db.Snapshot() == old(db.Snapshot())
    ensures r.Ok? <==> fault == Healthy && BookById(old(db.books), bookId).Some?
    ensures r.Ok? ==> r.value == DELETED && db.Snapshot() == DeleteBookCascade(old(db.Snapshot()), bookId)
    ensures r.Ok? ==> bookId !in BookIds(db.books)
                      && forall v :: v in db.reviews ==> v.bookId != Some(bookId)
  {
    var found := GetBook(db, bookId, fault);
    if found.Err? {
      return Err(found.failure);
    }
    if fault == CommitFails {
      return Err(Fail(INTERNAL_SERVER_ERROR, DELETE_FAILED));
    }
    DeleteBookKeepsIntegrity(db.Snapshot(), bookId);
    db.Commit(DeleteBookCascade(db.Snapshot(), bookId));
    r := Ok(DELETED);
  }
}
