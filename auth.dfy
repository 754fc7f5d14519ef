/** Login and signup (server/src/requests/auth.rs). The user lookup is the
    query `FOR user IN User FILTER user.email == @email RETURN user`; bcrypt
    is abstract: `verify` is a function parameter (it is deterministic given
    the stored hash) and the outcome of the salted `hash` is a parameter. */
module Auth {
  import opened Wrappers
  import opened Models

  datatype LoginParams = LoginParams(email: string, password: string)

  datatype SignupParams = SignupParams(
    firstName: string,
    lastName: string,
    email: string,
    password: string)

  /** What the bcrypt crate reports when it cannot hash or verify. */
  datatype BcryptError = BcryptError(detail: string)

  /** `bcrypt::verify(password, hash)`. */
  type Verifier = (string, string) -> Result<bool, BcryptError>

  /** The body of a successful refresh: a user and a token. Its shape is
      that of its construction at server/src/requests/jwt.rs:102. */
  datatype AuthRes = AuthRes(user: User, token: string)

  const WRONG_CREDENTIALS := "Email and/or password are wrong"
  const EMAIL_TAKEN := "Email is already associated with another user"
  const USER_NOT_CREATED := "Error creating user"
  const HASHING_FAILED := "Error hashing password: "

  /** `users[i]` is the first user whose email is `email`. */
  predicate FirstWithEmail(users: seq<User>, email: string, i: int) {
    0 <= i < |users| && users[i].email == email && forall j :: 0 <= j < i ==> users[j].email != email
  }

  /** The users whose email is `email`, in collection order. */
  function UsersWithEmail(users: seq<User>, email: string): (found: seq<User>)
    ensures |found| <= |users|
    ensures forall u :: u in found ==> u in users && u.email == email
    ensures forall i :: 0 <= i < |users| && users[i].email == email ==> users[i] in found
    ensures found != [] ==> exists i :: FirstWithEmail(users, email, i) && users[i] == found[0]
  {
    if users == [] then []
    else if users[0].email == email then [users[0]] + UsersWithEmail(users[1..], email)
    else
      var rest := UsersWithEmail(users[1..], email);
      assert forall i :: 1 <= i < |users| ==> users[i] == users[1..][i - 1];
      if rest != [] then
        var i :| FirstWithEmail(users[1..], email, i) && users[1..][i] == rest[0];
        assert FirstWithEmail(users, email, i + 1) && users[i + 1] == rest[0];
        rest
      else rest
  }

  /** `handle_login`: only the first user with the email is checked; an
      unknown email, a wrong password and a failing `verify` all give the
      same 400 response. */
  function HandleLogin(users: seq<User>, params: LoginParams, verify: Verifier): (r: Response<User>)
    ensures UsersWithEmail(users, params.email) == [] ==> r == Failure(BAD_REQUEST, WRONG_CREDENTIALS)
    ensures r.status == OK <==>
      var found := UsersWithEmail(users, params.email);
      found != [] && verify(params.password, found[0].password) == Ok(true)
    ensures r.status == OK ==> r.body == Success(UsersWithEmail(users, params.email)[0])
    ensures r.status != OK ==> r == Failure(BAD_REQUEST, WRONG_CREDENTIALS)
  {
    var found := UsersWithEmail(users, params.email);
    if found == [] then Failure(BAD_REQUEST, WRONG_CREDENTIALS)
    else
      var user := found[0];
      var matches := match verify(params.password, user.password)
        case Ok(b) => b
        case Err(_) => false;
      if matches then Response(OK, Success(user))
      else Failure(BAD_REQUEST, WRONG_CREDENTIALS)
  }

  /** A caller cannot tell an unknown email from a wrong password. */
  lemma NoCredentialOracle(users: seq<User>, unknown: LoginParams, known: LoginParams, verify: Verifier)
    requires UsersWithEmail(users, unknown.email) == []
    requires UsersWithEmail(users, known.email) != []
    requires verify(known.password, UsersWithEmail(users, known.email)[0].password) != Ok(true)
    ensures HandleLogin(users, unknown, verify) == HandleLogin(users, known, verify)
  {
  }

  /** A `verify` error reads as a mismatch. */
  lemma VerifyErrorIsMismatch(users: seq<User>, params: LoginParams, verify: Verifier, e: BcryptError)
    requires UsersWithEmail(users, params.email) != []
    requires verify(params.password, UsersWithEmail(users, params.email)[0].password) == Err(e)
    ensures HandleLogin(users, params, verify) == Failure(BAD_REQUEST, WRONG_CREDENTIALS)
  {
  }

  /** The document a signup inserts, as read back (`RETURN NEW`): the
      database's metadata, the names and email given, the hash in place of
      the password, and the default role because none is stored. */
  function NewUser(params: SignupParams, hash: string, meta: DocMeta): (u: User)
    ensures u.password == hash && u.email == params.email
  {
    User(meta, params.firstName, params.lastName, params.email, hash, CUSTOMER)
  }

  /** `handle_signup`: hash, then insert. A hashing failure writes nothing;
      any insert error is reported as a taken email. */
  method HandleSignup(db: Database, params: SignupParams, hashed: Result<string, BcryptError>, insert: InsertOutcome)
    returns (r: Response<User>)
    modifies db
    ensures db.items == old(db.items) && db.orders == old(db.orders)
    ensures hashed.Err? ==> r == Failure(INTERNAL_SERVER_ERROR, HASHING_FAILED + hashed.error.detail)
    ensures hashed.Err? || !insert.Inserted? ==> db.users == old(db.users)
    ensures hashed.Ok? && insert.InsertError? ==> r == Failure(BAD_REQUEST, EMAIL_TAKEN)
    ensures hashed.Ok? && insert.InsertedNothing? ==> r == Failure(INTERNAL_SERVER_ERROR, USER_NOT_CREATED)
    ensures hashed.Ok? && insert.Inserted? ==>
      var u := NewUser(params, hashed.value, insert.meta);
      db.users == old(db.users) + [u] && r == Response(OK, Success(u))
    ensures forall u :: u in db.users && u !in old(db.users) ==> hashed.Ok? && u.password == hashed.value
  {
    if hashed.Err? {
      return Failure(INTERNAL_SERVER_ERROR, HASHING_FAILED + hashed.error.detail);
    }
    match insert {
      case InsertError(_) =>
        r := Failure(BAD_REQUEST, EMAIL_TAKEN);
      case InsertedNothing =>
        r := Failure(INTERNAL_SERVER_ERROR, USER_NOT_CREATED);
      case Inserted(meta) =>
        var user := NewUser(params, hashed.value, meta);
        db.users := db.users + [user];
        r := Response(OK, Success(user));
    }
  }

  /** Signing up and then logging in with the same password succeeds, as
      long as the new user is the first one with that email and bcrypt
      accepts its own hash. */
  lemma {:induction false} LoginAfterSignup(before: seq<User>, params: SignupParams, hash: string, meta: DocMeta, verify: Verifier)
    requires UsersWithEmail(before, params.email) == []
    requires verify(params.password, hash) == Ok(true)
    ensures HandleLogin(before + [NewUser(params, hash, meta)], LoginParams(params.email, params.password), verify)
      == Response(OK, Success(NewUser(params, hash, meta)))
  {
    UsersWithEmailAppend(before, NewUser(params, hash, meta), params.email);
  }

  lemma {:induction false} UsersWithEmailAppend(users: seq<User>, u: User, email: string)
    requires UsersWithEmail(users, email) == []
    requires u.email == email
    ensures UsersWithEmail(users + [u], email) == [u]
  {
    if users == [] {
      assert users + [u] == [u];
    } else {
      assert (users + [u])[1..] == users[1..] + [u];
      assert users[0].email != email by {
        assert users[0] !in UsersWithEmail(users, email);
      }
      UsersWithEmailAppend(users[1..], u, email);
    }
  }
}
