/** The database session every handler receives: the three tables as they
    are after the last commit, kept consistent with their foreign keys. The
    user-service operations the handlers call (`create_user`, `update_user`
    and the lookups) are written here as the table changes they make. */
module Database {
  import opened Results
  import opened Models
  import opened Passwords
  import opened Ids

  /** A fault of the database server during one request: the service's
      first read fails, or the commit does. The user lookups of the guards
      always succeed. */
  datatype Fault = Healthy | ReadFails | CommitFails

  /** The users table after `update_user` wrote `updated` over the row with its id. */
  function ReplaceUserById(users: seq<User>, updated: User): (r: seq<User>)
    ensures |r| == |users|
    ensures forall i :: 0 <= i < |r| ==> r[i] == (if users[i].id == updated.id then updated else users[i])
    ensures updated.id in UserIds(users) ==> UserIds(r) == UserIds(users)
    ensures forall u :: u in r ==> u == updated || (u in users && u.id != updated.id)
  {
    var r := seq(|users|, i requires 0 <= i < |users| => if users[i].id == updated.id then updated else users[i]);
    assert updated.id in UserIds(users) ==> UserIds(r) == UserIds(users) by {
      if updated.id in UserIds(users) {
        forall x | x in UserIds(users) ensures x in UserIds(r) {
          var i :| 0 <= i < |users| && users[i].id == x;
          assert r[i].id == x;
        }
        forall x | x in UserIds(r) ensures x in UserIds(users) {
          var i :| 0 <= i < |r| && r[i].id == x;
          assert users[i].id == x;
        }
      }
    }
    r
  }

  class Session {
    var users: seq<User>
    var books: seq<Book>
    var reviews: seq<Review>

    function Snapshot(): Tables
      reads this
    {
      Tables(users, books, reviews)
    }

    ghost predicate Valid()
      reads this
    {
      Integrity(Snapshot())
    }

    constructor ()
      ensures Valid() && users == [] && books == [] && reviews == []
    {
      users, books, reviews := [], [], [];
    }

    /** `user_service.create_user`: a new row with the model's defaults
        (no names, role "user", not verified). */
    method CreateUser(id: string, username: string, email: string, passwordHash: PassHash, now: int)
      returns (u: User)
      requires Valid() && id !in UserIds(users)
      modifies this
      ensures Valid()
      ensures u == User(id, username, email, None, None, DEFAULT_ROLE, false, passwordHash, now, now)
      ensures users == old(users) + [u] && books == old(books) && reviews == old(reviews)
      ensures AllIds(Snapshot()) == old(AllIds(Snapshot())) + {id}
    {
      u := User(id, username, email, None, None, DEFAULT_ROLE, false, passwordHash, now, now);
      users := users + [u];
      assert UserIds(users) == UserIds(old(users)) + {id};
    }

    /** `user_service.update_user(user, ...)` for a user read from this session. */
    method ReplaceUser(updated: User)
      requires Valid() && updated.id in UserIds(users)
      modifies this
      ensures Valid()
      ensures users == ReplaceUserById(old(users), updated)
      ensures books == old(books) && reviews == old(reviews)
    {
      users := ReplaceUserById(users, updated);
      assert forall u :: u in users ==> u in old(users) || u == updated;
    }

    /** A successful `commit` of a consistent set of tables. */
    method Commit(t: Tables)
      requires Integrity(t)
      modifies this
      ensures Valid() && Snapshot() == t
    {
      users, books, reviews := t.users, t.books, t.reviews;
    }
  }

  /** Every identifier the tables use came from the identifier supply, so a
      fresh identifier is never a primary key already in use. */
  ghost predicate Tracked(db: Session, ids: UuidSupply)
    reads db, ids
  {
    db.Valid() && ids.Valid() && AllIds(db.Snapshot()) <= ids.issued
  }
}
