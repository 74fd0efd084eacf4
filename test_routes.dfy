/** The request handlers of the test routes: the bearer-token middleware,
    answer submission, the history of one user, and the middleware in
    front of the question and answer projections (in Scoring) and the
    leaderboard query (in Leaderboard). */
module TestRoutes {
  import opened Common
  import opened Crypto
  import opened Database
  import opened Scoring
  import opened Rows
  import Leaderboard

  /** What an authentication middleware decides: let the request through
      with the verified claims, or answer it with an error status. */
  datatype Verdict = Pass(claims: Claims) | Deny(status: int, error: string)

  const BearerPrefix: string := "Bearer "

  /** The token `authMiddleware` extracts: none unless the header is present
      and begins with "Bearer "; then the second space-separated field. */
  function BearerToken(header: Option<string>): (token: Option<string>)
    ensures token.Some? <==> header.Some? && BearerPrefix <= header.value
    ensures token.Some? ==> token == SecondField(header.value)
  {
    if header.None? || !(BearerPrefix <= header.value) then None
    else
      SecondFieldExists(header.value);
      assert header.value[6] == ' ';
      SecondField(header.value)
  }

  /** The header the client builds, `Bearer ${token}`, yields its token back
      when the token holds no space. */
  lemma BearerTokenOfClientHeader(token: string)
    requires ' ' !in token
    ensures BearerToken(Some(BearerPrefix + token)) == Some(token)
  {
    assert BearerPrefix + token == "Bearer" + " " + token;
    SecondFieldOfCredentials("Bearer", token);
  }

  /** `authMiddleware`: 401 "No token provided" without a bearer header,
      401 "Invalid token" when the token does not verify, otherwise through
      with the token's claims. */
  function Authenticate(header: Option<string>, crypto: Crypto): (v: Verdict)
    ensures v.Deny? ==> v.status == 401
    ensures v == Deny(401, "No token provided") <==> BearerToken(header).None?
    ensures v.Pass? <==> BearerToken(header).Some? && crypto.verify(BearerToken(header).value).Some?
    ensures v.Pass? ==> Some(v.claims) == crypto.verify(BearerToken(header).value)
    ensures (BearerToken(header).Some? && crypto.verify(BearerToken(header).value).None?) ==>
      v == Deny(401, "Invalid token")
  {
    match BearerToken(header)
    case None => Deny(401, "No token provided")
    case Some(token) =>
      match crypto.verify(token)
      case None => Deny(401, "Invalid token")
      case Some(claims) => Pass(claims)
  }

  /** The `answers` field of a submission body. `!answers || !Array.isArray(answers)`
      rejects exactly the values that are not arrays (an array is always
      truthy), so those are one case. */
  datatype AnswersField = AnswerArray(items: seq<Json>) | NotAnArray

  /** The 201 reply of `/submit`. */
  datatype Submission = Submission(resultId: int, score: int, bandScore: int, total: int)

  /** `POST /submit`: authenticate, check the body, score it, store the
      result. The stored row's user_id must name a stored user (the foreign
      key); otherwise the insert fails and the reply is 500. */
  method Submit(db: Store, crypto: Crypto, header: Option<string>, body: AnswersField, now: int)
    returns (r: Response<Submission>)
    requires db.Valid()
    modifies db
    ensures db.Valid()
    ensures Authenticate(header, crypto).Deny? ==>
      r == Failure(401, Authenticate(header, crypto).error) && unchanged(db)
    ensures Authenticate(header, crypto).Pass? && body.NotAnArray? ==>
      r == Failure(400, "Answers must be provided as an array") && unchanged(db)
    ensures (Authenticate(header, crypto).Pass? && body.AnswerArray? &&
             FindUserById(old(db.users), Authenticate(header, crypto).claims.userId).None?) ==>
      r == Failure(500, "Failed to save test result") && unchanged(db)
    ensures (Authenticate(header, crypto).Pass? && body.AnswerArray? &&
             FindUserById(old(db.users), Authenticate(header, crypto).claims.userId).Some?) ==>
      var score := Matches(body.items, AnswerKey, |Bank|);
      var id := old(db.nextResultId);
      && r == Success(201, Submission(id, score, BandScore(score), TotalQuestions))
      && db.results == old(db.results)
         + [Result(id, Authenticate(header, crypto).claims.userId, score, BandScore(score), now)]
      && db.users == old(db.users)
      && db.nextResultId == id + 1 && db.nextUserId == old(db.nextUserId)
  {
    var verdict := Authenticate(header, crypto);
    if verdict.Deny? {
      return Failure(401, verdict.error);
    }
    if body.NotAnArray? {
      return Failure(400, "Answers must be provided as an array");
    }
    var score := ScoreAnswers(body.items);
    var band := BandScore(score);
    var userId := verdict.claims.userId;
    if FindUserById(db.users, userId).None? {
      return Failure(500, "Failed to save test result");
    }
    var id := db.nextResultId;
    db.results := db.results + [Result(id, userId, score, band, now)];
    db.nextResultId := id + 1;
    r := Success(201, Submission(id, score, band, TotalQuestions));
  }

  /** `test_date DESC`. */
  predicate NewerOrSame(a: Result, b: Result)
  {
    a.testDate >= b.testDate
  }

  /** `GET /history`: the caller's results, newest first. */
  function History(results: seq<Result>, userId: int): (history: seq<Result>)
    ensures forall r :: multiset(history)[r] == if r.userId == userId then multiset(results)[r] else 0
    ensures Sorted(history, NewerOrSame)
  {
    assert TotalPreorder(NewerOrSame);
    var mine := Filter(results, (r: Result) => r.userId == userId);
    Sort(mine, NewerOrSame)
  }

  /** `GET /questions` behind the middleware: 401 with the middleware's
      message, or 200 with the questions stripped of their answers. */
  function GetQuestions(header: Option<string>, crypto: Crypto): (r: Response<seq<ClientQuestion>>)
    ensures r.Success? <==> Authenticate(header, crypto).Pass?
    ensures r.Success? ==> r == Success(200, ClientQuestions())
    ensures r.Failure? ==> r == Failure(401, Authenticate(header, crypto).error)
  {
    match Authenticate(header, crypto)
    case Deny(status, error) => Failure(status, error)
    case Pass(_) => Success(200, ClientQuestions())
  }

  /** `GET /answers` behind the middleware. */
  function GetAnswers(header: Option<string>, crypto: Crypto): (r: Response<seq<Solution>>)
    ensures r.Success? <==> Authenticate(header, crypto).Pass?
    ensures r.Success? ==> r == Success(200, Solutions())
    ensures r.Failure? ==> r == Failure(401, Authenticate(header, crypto).error)
  {
    match Authenticate(header, crypto)
    case Deny(status, error) => Failure(status, error)
    case Pass(_) => Success(200, Solutions())
  }

  /** `GET /history` behind the middleware: the results of the user the
      token names. */
  function GetHistory(header: Option<string>, crypto: Crypto, results: seq<Result>): (r: Response<seq<Result>>)
    ensures r.Success? <==> Authenticate(header, crypto).Pass?
    ensures r.Success? ==> r == Success(200, History(results, Authenticate(header, crypto).claims.userId))
    ensures r.Failure? ==> r == Failure(401, Authenticate(header, crypto).error)
  {
    match Authenticate(header, crypto)
    case Deny(status, error) => Failure(status, error)
    case Pass(claims) => Success(200, History(results, claims.userId))
  }

  /** `GET /leaderboard` behind the middleware: the same board for every
      authenticated caller. */
  function GetLeaderboard(header: Option<string>, crypto: Crypto, results: seq<Result>, users: seq<User>)
    : (r: Response<seq<Leaderboard.Entry>>)
    ensures r.Success? <==> Authenticate(header, crypto).Pass?
    ensures r.Success? ==> r == Success(200, Leaderboard.Board(results, users))
    ensures r.Failure? ==> r == Failure(401, Authenticate(header, crypto).error)
  {
    match Authenticate(header, crypto)
    case Deny(status, error) => Failure(status, error)
    case Pass(_) => Success(200, Leaderboard.Board(results, users))
  }
}
