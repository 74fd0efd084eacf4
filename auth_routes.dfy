/** Registration and login over the users table. Password hashing and
    token signing are the functions of a `Crypto` value. */
module AuthRoutes {
  import opened Common
  import opened Crypto
  import opened Database
  import opened Rows
  import TestRoutes

  const MissingFields: string := "Username and password are required"

  const InvalidCredentials: string := "Invalid credentials"

  /** The row `INSERT INTO users (username, password)` creates: columns not
      given take their defaults (role 'user', created_at now). */
  function NewUser(id: int, username: string, hashed: string, now: int): User
  {
    User(id, username, hashed, DefaultRole, now)
  }

  /** `POST /register`: 400 unless both fields are non-empty strings; 400
      "Username already exists" when the UNIQUE constraint refuses the
      insert; otherwise one new row holding the password's hash, and 201
      with its id. */
  method Register(db: Store, crypto: Crypto, username: Option<string>, password: Option<string>, now: int)
    returns (r: Response<int>)
    requires db.Valid()
    modifies db
    ensures db.Valid()
    ensures !(Present(username) && Present(password)) ==>
      r == Failure(400, MissingFields) && unchanged(db)
    ensures (Present(username) && Present(password) && FindByUsername(old(db.users), username.value).Some?) ==>
      r == Failure(400, "Username already exists") && unchanged(db)
    ensures (Present(username) && Present(password) && FindByUsername(old(db.users), username.value).None?) ==>
      && r == Success(201, old(db.nextUserId))
      && db.users == old(db.users) + [NewUser(old(db.nextUserId), username.value, crypto.hash(password.value), now)]
      && db.results == old(db.results)
      && db.nextUserId == old(db.nextUserId) + 1 && db.nextResultId == old(db.nextResultId)
  {
    if !(Present(username) && Present(password)) {
      return Failure(400, MissingFields);
    }
    var hashed := crypto.hash(password.value);
    if FindByUsername(db.users, username.value).Some? {
      return Failure(400, "Username already exists");
    }
    var id := db.nextUserId;
    var row := NewUser(id, username.value, hashed, now);
    PairwiseAppend(db.users, row, DifferentIds);
    PairwiseAppend(db.users, row, DifferentNames);
    forall x | x in db.results ensures FindUserById(db.users + [row], x.userId).Some? {
      FindUserByIdAppend(db.users, row, x.userId);
    }
    db.users := db.users + [row];
    db.nextUserId := id + 1;
    r := Success(201, id);
  }

  /** The `user` object of a login reply: no password, no role. */
  datatype PublicUser = PublicUser(id: int, username: string)

  datatype Session = Session(token: string, user: PublicUser)

  /** `POST /login`: 400 unless both fields are non-empty strings; 401
      "Invalid credentials", the same for an unknown username and for a
      wrong password; otherwise a token signed over `{ userId, username }`
      of the row found. */
  function Login(users: seq<User>, crypto: Crypto, username: Option<string>, password: Option<string>): (r: Response<Session>)
    ensures !(Present(username) && Present(password)) ==> r == Failure(400, MissingFields)
    ensures r.Failure? ==> r.status in {400, 401} && (r.status == 401 ==> r.error == InvalidCredentials)
    ensures (Present(username) && Present(password) && r.Failure?) ==> r == Failure(401, InvalidCredentials)
    ensures r.Success? <==>
      && Present(username) && Present(password)
      && FindByUsername(users, username.value).Some?
      && crypto.compare(password.value, FindByUsername(users, username.value).value.password)
    ensures r.Success? ==>
      var u := FindByUsername(users, username.value).value;
      && u.username == username.value
      && r == Success(200, Session(crypto.sign(Claims(u.id, u.username)), PublicUser(u.id, u.username)))
  {
    if !(Present(username) && Present(password)) then Failure(400, MissingFields)
    else
      match FindByUsername(users, username.value)
      case None => Failure(401, InvalidCredentials)
      case Some(user) =>
        if !crypto.compare(password.value, user.password) then Failure(401, InvalidCredentials)
        else Success(200, Session(crypto.sign(Claims(user.id, user.username)), PublicUser(user.id, user.username)))
  }

  /** Logging in with the credentials just registered succeeds, and the
      token's claims name the new row: the row is found by its name, and
      bcrypt accepts the password its hash was made from. */
  lemma LoginAfterRegister(users: seq<User>, crypto: Crypto, id: int, username: string, password: string, now: int)
    requires HashSound(crypto)
    requires username != "" && password != ""
    requires FindByUsername(users, username).None?
    ensures Login(users + [NewUser(id, username, crypto.hash(password), now)], crypto, Some(username), Some(password))
         == Success(200, Session(crypto.sign(Claims(id, username)), PublicUser(id, username)))
  {
    FindByUsernameAppend(users, NewUser(id, username, crypto.hash(password), now));
  }

  /** The token a login hands out opens the test routes when sent back as
      `Bearer <token>`, with the claims of the user who logged in. */
  lemma LoginTokenOpensTestRoutes(users: seq<User>, crypto: Crypto, username: Option<string>, password: Option<string>)
    requires TokenSound(crypto)
    requires Login(users, crypto, username, password).Success?
    ensures
      var session := Login(users, crypto, username, password).value;
      TestRoutes.Authenticate(Some(TestRoutes.BearerPrefix + session.token), crypto)
        == TestRoutes.Pass(Claims(session.user.id, session.user.username))
  {
    var session := Login(users, crypto, username, password).value;
    var claims := Claims(session.user.id, session.user.username);
    assert session.token == crypto.sign(claims);
    TestRoutes.BearerTokenOfClientHeader(session.token);
  }
}
