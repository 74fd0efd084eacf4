/** The admin routes: the gate every one of them passes through, the
    overview counts, the user listing, and deleting a user together with
    their results. */
module AdminRoutes {
  import opened Common
  import opened Crypto
  import opened Database
  import opened Rows
  import opened TestRoutes

  /** `authHeader && authHeader.split(' ')[1]`, then its truthiness: the
      second space-separated field when the header is present, non-empty and
      that field is non-empty. The scheme word is not checked. */
  function AdminToken(header: Option<string>): (token: Option<string>)
    ensures token.Some? ==> token.value != ""
    ensures token.Some? ==> header.Some? && token == SecondField(header.value)
    ensures token.Some? <==> Present(header) && SecondField(header.value).Some? && SecondField(header.value).value != ""
  {
    if !Present(header) then None
    else
      match SecondField(header.value)
      case None => None
      case Some(t) => if t == "" then None else Some(t)
  }

  /** `authenticateAdmin`: 401 without a token, 400 when the token does not
      verify, 401 when no stored user has the token's user id, 403 when the
      stored user's role is not 'admin'; otherwise through. The role comes
      from the table, never from the token. */
  function AuthenticateAdmin(header: Option<string>, crypto: Crypto, users: seq<User>): (v: Verdict)
    ensures v == Deny(401, "Access denied. No token provided.") <==> AdminToken(header).None?
    ensures (AdminToken(header).Some? && crypto.verify(AdminToken(header).value).None?) <==> v == Deny(400, "Invalid token.")
    ensures v.Pass? <==>
      && AdminToken(header).Some?
      && crypto.verify(AdminToken(header).value).Some?
      && FindUserById(users, crypto.verify(AdminToken(header).value).value.userId).Some?
      && FindUserById(users, crypto.verify(AdminToken(header).value).value.userId).value.role == AdminRole
    ensures v.Pass? ==> Some(v.claims) == crypto.verify(AdminToken(header).value)
    ensures (AdminToken(header).Some? && crypto.verify(AdminToken(header).value).Some?
             && FindUserById(users, crypto.verify(AdminToken(header).value).value.userId).None?)
            ==> v == Deny(401, "Invalid token.")
    ensures (AdminToken(header).Some? && crypto.verify(AdminToken(header).value).Some?
             && FindUserById(users, crypto.verify(AdminToken(header).value).value.userId).Some?
             && FindUserById(users, crypto.verify(AdminToken(header).value).value.userId).value.role != AdminRole)
            ==> v == Deny(403, "Access denied. Admin only.")
    ensures v.Deny? ==> v.status in {400, 401, 403}
  {
    match AdminToken(header)
    case None => Deny(401, "Access denied. No token provided.")
    case Some(token) =>
      match crypto.verify(token)
      case None => Deny(400, "Invalid token.")
      case Some(claims) =>
        match FindUserById(users, claims.userId)
        case None => Deny(401, "Invalid token.")
        case Some(user) =>
          if user.role != AdminRole then Deny(403, "Access denied. Admin only.")
          else Pass(claims)
  }

  /** Unlike the test routes' middleware, the admin gate takes the second
      field under any scheme word: "Basic t" reaches token verification here
      and is refused there. */
  lemma GateIgnoresScheme(scheme: string, token: string)
    requires ' ' !in scheme && ' ' !in token && token != ""
    ensures AdminToken(Some(scheme + " " + token)) == Some(token)
    ensures scheme != "Bearer" ==> TestRoutes.BearerToken(Some(scheme + " " + token)).None?
  {
    SecondFieldOfCredentials(scheme, token);
    BearerPrefixMeansBearer(scheme, token);
  }

  /** The only space-free word w for which `w + " " + ...` starts with "Bearer " is "Bearer". */
  lemma BearerPrefixMeansBearer(scheme: string, token: string)
    requires ' ' !in scheme
    ensures TestRoutes.BearerPrefix <= scheme + " " + token ==> scheme == "Bearer"
  {
    var h := scheme + " " + token;
    if TestRoutes.BearerPrefix <= h {
      assert h[6] == ' ';
      assert forall k :: 0 <= k < |scheme| ==> h[k] == scheme[k];
      assert h[|scheme|] == ' ';
      assert forall k :: 0 <= k < 6 ==> h[k] != ' ';
      assert |scheme| == 6;
      assert scheme == h[..6];
    }
  }

  /** The decision reads only the stored row of the token's user: two tables
      that agree on that row, with any claimed username, decide alike. */
  lemma GateDependsOnStoredRow(header: Option<string>, crypto: Crypto, users1: seq<User>, users2: seq<User>)
    requires AdminToken(header).Some? && crypto.verify(AdminToken(header).value).Some?
    requires
      var id := crypto.verify(AdminToken(header).value).value.userId;
      FindUserById(users1, id) == FindUserById(users2, id)
    ensures AuthenticateAdmin(header, crypto, users1) == AuthenticateAdmin(header, crypto, users2)
  {
  }

  /** A token issued to an admin stops opening the admin routes once the
      stored role is no longer 'admin'. */
  lemma {:induction false} DemotedAdminIsForbidden(header: Option<string>, crypto: Crypto, users: seq<User>, i: nat, role: string)
    requires i < |users| && UniqueUserIds(users) && role != AdminRole
    requires AdminToken(header).Some? && crypto.verify(AdminToken(header).value) == Some(Claims(users[i].id, users[i].username))
    ensures AuthenticateAdmin(header, crypto, users[i := users[i].(role := role)]) == Deny(403, "Access denied. Admin only.")
  {
    FindUserByIdUnique(users[i := users[i].(role := role)], i);
  }

  /** With unique ids, the lookup by id finds the row holding it. */
  lemma {:induction false} FindUserByIdUnique(users: seq<User>, i: nat)
    requires i < |users|
    requires forall j :: 0 <= j < |users| && j != i ==> users[j].id != users[i].id
    ensures FindUserById(users, users[i].id) == Some(users[i])
  {
    if i > 0 {
      FindUserByIdUnique(users[1..], i - 1);
    }
  }

  // ---------------------------------------------------------------------
  // GET /stats and GET /users

  /** `role = "user"`: the rows counted and listed (admins are not). */
  predicate IsPlainUser(u: User)
  {
    u.role == DefaultRole
  }

  function SumBands(results: seq<Result>): int
  {
    if results == [] then 0 else results[0].band + SumBands(results[1..])
  }

  /** `averageBandScore`: 0 when `AVG(band_score)` is NULL (no results) or 0;
      otherwise the mean, sum over count, in tenths of a band. */
  datatype Average = Zero | Mean(bandSum: int, count: nat)

  datatype Stats = Stats(totalUsers: nat, totalTests: nat, average: Average)

  /** `GET /stats`. */
  function GetStats(users: seq<User>, results: seq<Result>): (stats: Stats)
    ensures stats.totalTests == |results|
    ensures stats.average == Zero <==> results == [] || SumBands(results) == 0
    ensures stats.average.Mean? ==> stats.average.count == |results| > 0 && stats.average.bandSum == SumBands(results)
  {
    var learners := Filter(users, IsPlainUser);
    var sum := SumBands(results);
    Stats(|learners|, |results|, if results == [] || sum == 0 then Zero else Mean(sum, |results|))
  }

  /** The user count moves with the rows of role 'user' only: adding an
      admin leaves it alone, adding a user raises it by one. */
  lemma UserCountAppend(users: seq<User>, u: User, results: seq<Result>)
    ensures GetStats(users + [u], results).totalUsers == GetStats(users, results).totalUsers + (if IsPlainUser(u) then 1 else 0)
  {
    var before := Filter(users, IsPlainUser);
    var after := Filter(users + [u], IsPlainUser);
    assert multiset(users + [u]) == multiset(users) + multiset{u};
    assert multiset(after) == multiset(before) + (if IsPlainUser(u) then multiset{u} else multiset{});
    assert |multiset(after)| == |after| && |multiset(before)| == |before|;
  }

  /** Every stored band is a non-negative tenth, so the average is reported
      as 0 exactly when there are no results or every band is 0.0. */
  lemma {:induction false} AverageZeroWhenAllBandsZero(results: seq<Result>)
    requires BandsDerived(results)
    ensures SumBands(results) == 0 <==> forall r :: r in results ==> r.band == 0
  {
    if results != [] {
      assert forall r :: r in results[1..] ==> r in results;
      AverageZeroWhenAllBandsZero(results[1..]);
      assert SumBands(results[1..]) >= 0 by { SumBandsNonNegative(results[1..]); }
    }
  }

  lemma {:induction false} SumBandsNonNegative(results: seq<Result>)
    requires BandsDerived(results)
    ensures SumBands(results) >= 0
  {
    if results != [] {
      assert forall r :: r in results[1..] ==> r in results;
      SumBandsNonNegative(results[1..]);
    }
  }

  /** A row of `GET /users`: no password, no role. */
  datatype UserSummary = UserSummary(id: int, username: string, createdAt: int)

  function Summary(u: User): UserSummary
  {
    UserSummary(u.id, u.username, u.createdAt)
  }

  /** `created_at DESC`. */
  predicate JoinedLaterOrSame(a: User, b: User)
  {
    a.createdAt >= b.createdAt
  }

  /** `GET /users`: the rows of role 'user', without password and role,
      most recently created first. */
  function ListUsers(users: seq<User>): (list: seq<UserSummary>)
    ensures |list| == |Filter(users, IsPlainUser)|
    ensures forall i, j :: 0 <= i < j < |list| ==> list[i].createdAt >= list[j].createdAt
  {
    assert TotalPreorder(JoinedLaterOrSame);
    var ordered := Sort(Filter(users, IsPlainUser), JoinedLaterOrSame);
    PermutationLength(ordered, Filter(users, IsPlainUser));
    seq(|ordered|, i requires 0 <= i < |ordered| => Summary(ordered[i]))
  }

  /** The listing holds a summary of every row of role 'user' and of no other row. */
  lemma ListUsersIsExactlyThePlainUsers(users: seq<User>)
    ensures forall s :: s in ListUsers(users) <==> exists u :: u in users && IsPlainUser(u) && Summary(u) == s
  {
    var learners := Filter(users, IsPlainUser);
    var ordered := Sort(learners, JoinedLaterOrSame);
    var list := ListUsers(users);
    assert forall i :: 0 <= i < |list| ==> list[i] == Summary(ordered[i]);
    forall s | s in list ensures exists u :: u in users && IsPlainUser(u) && Summary(u) == s {
      var i :| 0 <= i < |list| && list[i] == s;
      assert ordered[i] in multiset(ordered);
    }
    forall u | u in users && IsPlainUser(u) ensures Summary(u) in list {
      assert u in multiset(ordered);
      var i :| 0 <= i < |ordered| && ordered[i] == u;
      assert list[i] == Summary(u);
    }
  }

  /** `/stats` counts exactly the rows `/users` lists. */
  lemma StatsCountListedUsers(users: seq<User>, results: seq<Result>)
    ensures GetStats(users, results).totalUsers == |ListUsers(users)|
  {
  }

  /** `GET /stats` behind the gate: the gate's refusal, or 200 with the counts. */
  function GetStatsRoute(header: Option<string>, crypto: Crypto, users: seq<User>, results: seq<Result>)
    : (r: Response<Stats>)
    ensures r.Success? <==> AuthenticateAdmin(header, crypto, users).Pass?
    ensures r.Success? ==> r == Success(200, GetStats(users, results))
    ensures r.Failure? ==>
      r == Failure(AuthenticateAdmin(header, crypto, users).status, AuthenticateAdmin(header, crypto, users).error)
  {
    match AuthenticateAdmin(header, crypto, users)
    case Deny(status, error) => Failure(status, error)
    case Pass(_) => Success(200, GetStats(users, results))
  }

  /** `GET /users` behind the gate: the gate's refusal, or 200 with the list. */
  function ListUsersRoute(header: Option<string>, crypto: Crypto, users: seq<User>): (r: Response<seq<UserSummary>>)
    ensures r.Success? <==> AuthenticateAdmin(header, crypto, users).Pass?
    ensures r.Success? ==> r == Success(200, ListUsers(users))
    ensures r.Failure? ==>
      r == Failure(AuthenticateAdmin(header, crypto, users).status, AuthenticateAdmin(header, crypto, users).error)
  {
    match AuthenticateAdmin(header, crypto, users)
    case Deny(status, error) => Failure(status, error)
    case Pass(_) => Success(200, ListUsers(users))
  }

  // ---------------------------------------------------------------------
  // DELETE /users/:id

  /** `WHERE user_id = ?` negated: the results a deletion of user id keeps. */
  function NotOwnedBy(id: int): Result -> bool
  {
    (r: Result) => r.userId != id
  }

  /** `WHERE id = ?` negated: the users a deletion of id keeps. */
  function OtherThan(id: int): User -> bool
  {
    (u: User) => u.id != id
  }

  /** After the two deletions the store keeps its invariant when it held before. */
  lemma DeletionKeepsValid(users: seq<User>, results: seq<Result>, id: int, nextUser: int, nextResult: int)
    requires Consistent(users, results, nextUser, nextResult)
    ensures Consistent(Filter(users, OtherThan(id)), Filter(results, NotOwnedBy(id)), nextUser, nextResult)
  {
    var users' := Filter(users, OtherThan(id));
    var results' := Filter(results, NotOwnedBy(id));
    FilterKeepsPairwise(users, OtherThan(id), DifferentIds);
    FilterKeepsPairwise(users, OtherThan(id), DifferentNames);
    FilterKeepsPairwise(results, NotOwnedBy(id), DifferentResultIds);
    forall r | r in results' ensures FindUserById(users', r.userId).Some? {
      var owner := FindUserById(users, r.userId).value;
      assert owner in users';
    }
  }

  /** `DELETE /users/:id`: the user's results are deleted first, then the
      user row; 404 when no user row had that id (its results, if any, are
      gone all the same). Everything else is left as it was. */
  method DeleteUser(db: Store, id: int) returns (r: Response<string>)
    requires db.Valid()
    modifies db
    ensures db.Valid()
    ensures db.results == Filter(old(db.results), NotOwnedBy(id))
    ensures db.users == Filter(old(db.users), OtherThan(id))
    ensures db.nextUserId == old(db.nextUserId) && db.nextResultId == old(db.nextResultId)
    ensures r == if FindUserById(old(db.users), id).None? then Failure(404, "User not found")
                 else Success(200, "User deleted successfully")
  {
    DeletionKeepsValid(db.users, db.results, id, db.nextUserId, db.nextResultId);
    db.results := Filter(db.results, NotOwnedBy(id));
    FilterRemovesFound(db.users, id);
    var before := |db.users|;
    db.users := Filter(db.users, OtherThan(id));
    var changes := before - |db.users|;
    if changes == 0 {
      return Failure(404, "User not found");
    }
    r := Success(200, "User deleted successfully");
  }

  /** Deleting by id removes a row exactly when a row has that id. */
  lemma FilterRemovesFound(users: seq<User>, id: int)
    ensures |Filter(users, OtherThan(id))| < |users| <==> FindUserById(users, id).Some?
  {
    FilterKeepsAllIffAllPass(users, OtherThan(id));
  }

  /** `DELETE /users/:id` behind the gate: a refused request changes nothing. */
  method DeleteUserRoute(db: Store, crypto: Crypto, header: Option<string>, id: int) returns (r: Response<string>)
    requires db.Valid()
    modifies db
    ensures db.Valid()
    ensures AuthenticateAdmin(header, crypto, old(db.users)).Deny? ==>
      var v := AuthenticateAdmin(header, crypto, old(db.users));
      r == Failure(v.status, v.error) && unchanged(db)
    ensures AuthenticateAdmin(header, crypto, old(db.users)).Pass? ==>
      && db.results == Filter(old(db.results), NotOwnedBy(id))
      && db.users == Filter(old(db.users), OtherThan(id))
      && db.nextUserId == old(db.nextUserId) && db.nextResultId == old(db.nextResultId)
      && r == (if FindUserById(old(db.users), id).None? then Failure(404, "User not found")
               else Success(200, "User deleted successfully"))
  {
    var verdict := AuthenticateAdmin(header, crypto, db.users);
    if verdict.Deny? {
      return Failure(verdict.status, verdict.error);
    }
    r := DeleteUser(db, id);
  }

  /** After the cascade, neither table mentions the deleted id and the
      user's history is empty. */
  lemma DeletedUserLeavesNoTrace(users: seq<User>, results: seq<Result>, id: int)
    ensures FindUserById(Filter(users, OtherThan(id)), id).None?
    ensures forall r :: r in Filter(results, NotOwnedBy(id)) ==> r.userId != id
    ensures TestRoutes.History(Filter(results, NotOwnedBy(id)), id) == []
  {
    var h := TestRoutes.History(Filter(results, NotOwnedBy(id)), id);
    assert multiset(h) == multiset{};
    assert |h| == |multiset(h)|;
  }

  /** Every other user and every other result survives the cascade, each as
      often as before. */
  lemma DeletionKeepsOthers(users: seq<User>, results: seq<Result>, id: int)
    ensures forall u: User :: u.id != id ==> multiset(Filter(users, OtherThan(id)))[u] == multiset(users)[u]
    ensures forall r: Result :: r.userId != id ==> multiset(Filter(results, NotOwnedBy(id)))[r] == multiset(results)[r]
  {
  }
}
