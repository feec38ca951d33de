/** POST /api/auth/login (app/api/auth/login/route.ts): the cookie-based login
    handler. There is no presence check: the email goes straight to the
    lookup. An unknown email and a wrong password both give 400 "Invalid
    credentials"; success sets the `token` cookie to a token of the user's id
    and email. Any exception becomes a 500 carrying its message. */
module AuthLogin {
  import opened Common
  import AuthRegister

  datatype Body = Body(email: Option<string>, password: Option<string>)

  /** What `comparePasswords(password, user.password)` does: it resolves to a
      verdict, or throws (bcrypt throws when the password is not a string). */
  datatype Comparison = Match | NoMatch | CompareThrew(message: string)

  datatype Reply = Error(error: string) | Success(message: string)

  /** `User.findOne({ email })`: the index of the first user with exactly
      this email. A request without an email is taken to find no user. */
  function FindUser(users: seq<AuthRegister.User>, email: Option<string>): (r: Option<nat>)
    ensures r.Some? ==> email.Some? && r.value < |users| && users[r.value].email == email.value
    ensures r.None? ==> email.None? || forall i :: 0 <= i < |users| ==> users[i].email != email.value
    ensures r.Some? ==> forall j :: 0 <= j < r.value ==> users[j].email != email.value
    decreases |users|
  {
    if email.None? || users == [] then None
    else if users[0].email == email.value then Some(0)
    else match FindUser(users[1..], email)
      case None => None
      case Some(i) => Some(i + 1)
  }

  datatype Outcome = Outcome(response: Response<Reply>, cookie: Option<string>)

  /** The handler as a function of the users and the cookie before the
      request; `body`, `connect` and `sign` as for registration, `compare`
      the password check against the stored hash. */
  function Login(users: seq<AuthRegister.User>, cookie: Option<string>, body: AuthRegister.Parsed<Body>,
                 connect: Option<string>, compare: (Option<string>, string) -> Comparison,
                 sign: Record -> string): (o: Outcome)
    ensures o.response.status in {200, 400, 500}
    ensures o.response.status != 200 ==> o.cookie == cookie
    ensures o.response.status == 400 ==> o.response.body == Error("Invalid credentials")
    ensures body.ParseError? ==> o.response == Response(500, Error(body.message))
    ensures body.Parsed? && connect.Some? ==> o.response == Response(500, Error(connect.value))
    ensures body.Parsed? && connect.None? && FindUser(users, body.value.email).None? ==>
      o.response == Response(400, Error("Invalid credentials"))
    ensures (body.Parsed? && connect.None? &&
      (var i := FindUser(users, body.value.email);
       i.Some? && compare(body.value.password, users[i.value].password) == NoMatch)) ==>
      o.response == Response(400, Error("Invalid credentials"))
    ensures (body.Parsed? && connect.None? &&
      (var i := FindUser(users, body.value.email);
       i.Some? && compare(body.value.password, users[i.value].password).CompareThrew?)) ==>
      o.response ==
        Response(500, Error(compare(body.value.password, users[FindUser(users, body.value.email).value].password).message))
    ensures o.response.status == 200 <==>
      body.Parsed? && connect.None? &&
      var i := FindUser(users, body.value.email);
      i.Some? && compare(body.value.password, users[i.value].password) == Match
    ensures o.response.status == 200 ==>
      var u := users[FindUser(users, body.value.email).value];
      o.cookie == Some(sign(AuthRegister.Claims(u))) && o.response.body == Success("Login successful")
  {
    match body
    case ParseError(m) => Outcome(Response(500, Error(m)), cookie)
    case Parsed(b) =>
      if connect.Some? then
        Outcome(Response(500, Error(connect.value)), cookie)
      else
        match FindUser(users, b.email)
        case None => Outcome(Response(400, Error("Invalid credentials")), cookie)
        case Some(i) =>
          match compare(b.password, users[i].password)
          case CompareThrew(m) => Outcome(Response(500, Error(m)), cookie)
          case NoMatch => Outcome(Response(400, Error("Invalid credentials")), cookie)
          case Match =>
            Outcome(Response(200, Success("Login successful")), Some(sign(AuthRegister.Claims(users[i]))))
  }

  /** Without a presence check, a request with no password still reaches the
      comparison for a stored user, and the comparison's verdict decides. */
  lemma MissingPasswordReachesCompare(users: seq<AuthRegister.User>, cookie: Option<string>, email: string,
                                      compare: (Option<string>, string) -> Comparison, sign: Record -> string)
    requires FindUser(users, Some(email)).Some?
    ensures var u := users[FindUser(users, Some(email)).value];
      var o := Login(users, cookie, AuthRegister.Parsed(Body(Some(email), None)), None, compare, sign);
      (compare(None, u.password).CompareThrew? ==> o.response == Response(500, Error(compare(None, u.password).message))) &&
      (compare(None, u.password) == NoMatch ==> o.response == Response(400, Error("Invalid credentials")))
  {
  }

  /** A user registered through /api/auth/register can log in with the same
      email and password, and gets the same cookie. */
  lemma RegisterThenLogin(s: AuthRegister.State, email: string, password: string, newId: string,
                          hash: string -> string, sign: Record -> string,
                          compare: (Option<string>, string) -> Comparison)
    requires email != "" && password != ""
    requires !AuthRegister.EmailInUse(s.users, email)
    requires compare(Some(password), hash(password)) == Match
    ensures var reg := AuthRegister.Register(s, AuthRegister.Parsed(AuthRegister.Body(Some(email), Some(password))),
                                             None, newId, hash, sign);
      var log := Login(reg.state.users, None, AuthRegister.Parsed(Body(Some(email), Some(password))), None, compare, sign);
      reg.response.status == 200 && log.response == Response(200, Success("Login successful")) &&
      log.cookie == reg.state.cookie
  {
    var reg := AuthRegister.Register(s, AuthRegister.Parsed(AuthRegister.Body(Some(email), Some(password))),
                                     None, newId, hash, sign);
    var users := reg.state.users;
    assert users == s.users + [AuthRegister.User(newId, email, hash(password))];
    var i := FindUser(users, Some(email));
    assert i.Some? by { assert users[|s.users|].email == email; }
    assert forall j :: 0 <= j < |s.users| ==> users[j] == s.users[j];
  }

  /** The user store (read only here) and the response cookie jar. */
  class CookieSession {
    const users: seq<AuthRegister.User>
    var cookie: Option<string>

    constructor (initial: seq<AuthRegister.User>)
      ensures users == initial && cookie == None
    {
      users := initial;
      cookie := None;
    }

    /** `POST`: on success `setAuthCookie` is the only write. */
    method Post(body: AuthRegister.Parsed<Body>, connect: Option<string>,
                compare: (Option<string>, string) -> Comparison, sign: Record -> string)
      returns (resp: Response<Reply>)
      modifies this`cookie
      ensures var o := Login(users, old(cookie), body, connect, compare, sign);
        resp == o.response && cookie == o.cookie
    {
      if body.ParseError? {
        return Response(500, Error(body.message));
      }
      if connect.Some? {
        return Response(500, Error(connect.value));
      }
      var found := FindUser(users, body.value.email);
      if found.None? {
        return Response(400, Error("Invalid credentials"));
      }
      var user := users[found.value];
      var isMatch := compare(body.value.password, user.password);
      if isMatch.CompareThrew? {
        return Response(500, Error(isMatch.message));
      }
      if isMatch == NoMatch {
        return Response(400, Error("Invalid credentials"));
      }
      var token := sign(AuthRegister.Claims(user));
      cookie := Some(token);
      resp := Response(200, Success("Login successful"));
    }
  }
}
