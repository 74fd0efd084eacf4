/** The two tables of the schema and the in-memory store that holds them.
    `users.id` and `results.id` are AUTO_INCREMENT primary keys,
    `users.username` is UNIQUE, `users.role` defaults to 'user',
    `results.user_id` is a foreign key into `users`. Timestamps are integers
    supplied by the caller. */
module Database {
  import opened Common
  import opened Crypto
  import opened Rows
  import Scoring

  datatype User = User(id: int, username: string, password: string, role: string, createdAt: int)

  datatype Result = Result(id: int, userId: int, score: int, band: int, testDate: int)

  /** The column default of `users.role`. */
  const DefaultRole: string := "user"

  const AdminRole: string := "admin"

  /** `SELECT ... FROM users WHERE id = ?`, first row. */
  function FindUserById(users: seq<User>, id: int): (found: Option<User>)
    ensures found.Some? ==> found.value in users && found.value.id == id
    ensures found.None? <==> forall u :: u in users ==> u.id != id
  {
    if users == [] then None
    else if users[0].id == id then Some(users[0])
    else FindUserById(users[1..], id)
  }

  /** `SELECT * FROM users WHERE username = ?`, first row. */
  function FindByUsername(users: seq<User>, name: string): (found: Option<User>)
    ensures found.Some? ==> found.value in users && found.value.username == name
    ensures found.None? <==> forall u :: u in users ==> u.username != name
  {
    if users == [] then None
    else if users[0].username == name then Some(users[0])
    else FindByUsername(users[1..], name)
  }

  /** A row added at the end is found by its name when no earlier row has it. */
  lemma {:induction false} FindByUsernameAppend(users: seq<User>, row: User)
    requires FindByUsername(users, row.username).None?
    ensures FindByUsername(users + [row], row.username) == Some(row)
  {
    if users != [] {
      assert (users + [row])[1..] == users[1..] + [row];
      FindByUsernameAppend(users[1..], row);
    }
  }

  /** Appending a row does not change which row an existing id finds. */
  lemma {:induction false} FindUserByIdAppend(users: seq<User>, row: User, id: int)
    requires FindUserById(users, id).Some?
    ensures FindUserById(users + [row], id) == FindUserById(users, id)
  {
    if users[0].id != id {
      assert (users + [row])[1..] == users[1..] + [row];
      FindUserByIdAppend(users[1..], row, id);
    }
  }

  /** The number of rows holding a username. */
  function CountUsername(users: seq<User>, name: string): nat
  {
    if users == [] then 0
    else (if users[0].username == name then 1 else 0) + CountUsername(users[1..], name)
  }

  predicate DifferentIds(a: User, b: User) { a.id != b.id }

  predicate DifferentNames(a: User, b: User) { a.username != b.username }

  predicate DifferentResultIds(a: Result, b: Result) { a.id != b.id }

  /** The PRIMARY KEY of `users`. */
  ghost predicate UniqueUserIds(users: seq<User>)
  {
    Pairwise(users, DifferentIds)
  }

  /** The UNIQUE constraint on `users.username`. */
  ghost predicate UniqueUsernames(users: seq<User>)
  {
    Pairwise(users, DifferentNames)
  }

  /** The PRIMARY KEY of `results`. */
  ghost predicate UniqueResultIds(results: seq<Result>)
  {
    Pairwise(results, DifferentResultIds)
  }

  /** Every stored band was computed from its stored raw score out of 30. */
  ghost predicate BandsDerived(results: seq<Result>)
  {
    forall r :: r in results ==> 0 <= r.score <= Scoring.TotalQuestions && r.band == Scoring.BandScore(r.score)
  }

  /** The foreign key: every result belongs to a stored user. */
  ghost predicate ResultsOwned(results: seq<Result>, users: seq<User>)
  {
    forall r :: r in results ==> FindUserById(users, r.userId).Some?
  }

  /** Under the UNIQUE constraint a username is held by exactly one row or by none. */
  lemma {:induction false} UsernameHeldOnce(users: seq<User>, name: string)
    requires UniqueUsernames(users)
    ensures CountUsername(users, name) == (if FindByUsername(users, name).Some? then 1 else 0)
  {
    if users != [] {
      assert UniqueUsernames(users[1..]) by {
        forall i, j | 0 <= i < j < |users[1..]| ensures DifferentNames(users[1..][i], users[1..][j]) {
          assert users[1..][i] == users[i + 1] && users[1..][j] == users[j + 1];
        }
      }
      UsernameHeldOnce(users[1..], name);
      if users[0].username == name {
        assert forall u :: u in users[1..] ==> u.username != name by {
          forall u | u in users[1..] ensures u.username != name {
            var j :| 0 <= j < |users[1..]| && users[1..][j] == u;
            assert users[j + 1] == u && DifferentNames(users[0], users[j + 1]);
          }
        }
      }
    }
  }

  /** The constraints of the schema, and the AUTO_INCREMENT counters above every id in use. */
  ghost predicate Consistent(users: seq<User>, results: seq<Result>, nextUserId: int, nextResultId: int)
  {
    && 0 < nextUserId && 0 < nextResultId
    && UniqueUserIds(users)
    && UniqueUsernames(users)
    && (forall u :: u in users ==> 0 < u.id < nextUserId)
    && UniqueResultIds(results)
    && (forall r :: r in results ==> 0 < r.id < nextResultId)
    && BandsDerived(results)
    && ResultsOwned(results, users)
  }

  class Store {
    var users: seq<User>
    var results: seq<Result>
    /** The next AUTO_INCREMENT values of the two tables. */
    var nextUserId: int
    var nextResultId: int

    ghost predicate Valid()
      reads this
    {
      Consistent(users, results, nextUserId, nextResultId)
    }

    /** `initializeDatabase`: fresh tables, then the seeded admin account. */
    constructor (crypto: Crypto, adminUsername: string, adminPassword: string, now: int)
      ensures Valid()
      ensures users == [User(1, adminUsername, crypto.hash(adminPassword), AdminRole, now)]
      ensures results == []
      ensures nextUserId == 2 && nextResultId == 1
    {
      users := [User(1, adminUsername, crypto.hash(adminPassword), AdminRole, now)];
      results := [];
      nextUserId := 2;
      nextResultId := 1;
    }
  }
}
