/** POST /api/auth/register (app/api/auth/register/route.ts): the cookie-based
    registration handler. It needs an email and a password, refuses an email
    already stored (compared exactly as given), creates the user with the
    password hash, and sets the `token` cookie to a token of the new user's id
    and email. Any exception becomes a 500 carrying the exception's message. */
module AuthRegister {
  import opened Common

  datatype Body = Body(email: Option<string>, password: Option<string>)

  /** The request body as `req.json()` delivers it: parsed, or the message of
      the exception it throws. */
  datatype Parsed<T> = Parsed(value: T) | ParseError(message: string)

  /** A stored user: its id, email and password hash. */
  datatype User = User(id: string, email: string, password: string)

  /** The JSON body: `{ error }`, or `{ message, user: { email } }`. */
  datatype Reply = Error(error: string) | Registered(message: string, email: string)

  predicate Truthy(v: Option<string>)
  {
    v.Some? && v.value != ""
  }

  predicate EmailInUse(users: seq<User>, email: string)
  {
    exists i :: 0 <= i < |users| && users[i].email == email
  }

  /** The token payload `{ id: newUser._id, email: newUser.email }`. */
  function Claims(u: User): (c: Record)
    ensures c.Keys == {"id", "email"} && c["id"] == Str(u.id) && c["email"] == Str(u.email)
  {
    map["id" := Str(u.id), "email" := Str(u.email)]
  }

  /** The state the handler changes: the users and the `token` cookie. */
  datatype State = State(users: seq<User>, cookie: Option<string>)

  datatype Outcome = Outcome(response: Response<Reply>, state: State)

  /** The handler as a function of the state before the request. `connect` is
      `None` when `connectDB()` succeeds and the error message otherwise (the
      `findOne` and `create` calls after it are taken to succeed);
      `newId` is the id the store gives the new user; `hash` and `sign` are
      the password hash and the token signer. */
  function Register(s: State, body: Parsed<Body>, connect: Option<string>, newId: string,
                    hash: string -> string, sign: Record -> string): (o: Outcome)
    ensures o.response.status in {200, 400, 500}
    ensures o.response.status != 200 ==> o.state == s
    ensures body.ParseError? ==> o.response == Response(500, Error(body.message))
    ensures body.Parsed? && !(Truthy(body.value.email) && Truthy(body.value.password)) ==>
      o.response == Response(400, Error("Email and password required"))
    ensures body.Parsed? && Truthy(body.value.email) && Truthy(body.value.password) && connect.Some? ==>
      o.response == Response(500, Error(connect.value))
    ensures o.response.status == 200 <==>
      body.Parsed? && Truthy(body.value.email) && Truthy(body.value.password) && connect.None? &&
      !EmailInUse(s.users, body.value.email.value)
    ensures (body.Parsed? && Truthy(body.value.email) && Truthy(body.value.password) && connect.None? &&
      EmailInUse(s.users, body.value.email.value)) ==>
      o.response == Response(400, Error("Email already in use"))
    ensures o.response.status == 400 && body.Parsed? && Truthy(body.value.email) && Truthy(body.value.password) ==>
      o.response.body == Error("Email already in use") && EmailInUse(s.users, body.value.email.value)
    ensures o.response.status == 200 ==>
      var u := User(newId, body.value.email.value, hash(body.value.password.value));
      o.state == State(s.users + [u], Some(sign(Claims(u)))) &&
      o.response.body == Registered("User registered", u.email)
  {
    match body
    case ParseError(m) => Outcome(Response(500, Error(m)), s)
    case Parsed(b) =>
      if !Truthy(b.email) || !Truthy(b.password) then
        Outcome(Response(400, Error("Email and password required")), s)
      else if connect.Some? then
        Outcome(Response(500, Error(connect.value)), s)
      else if EmailInUse(s.users, b.email.value) then
        Outcome(Response(400, Error("Email already in use")), s)
      else
        var u := User(newId, b.email.value, hash(b.password.value));
        Outcome(Response(200, Registered("User registered", u.email)), State(s.users + [u], Some(sign(Claims(u)))))
  }

  /** Example: unlike /api/register, this handler does not normalise: an address that
      differs from a stored one only in case is a new account. */
  lemma EmailIsExact(s: State, connect: Option<string>, newId: string, hash: string -> string, sign: Record -> string)
    requires s.users == [User("u1", "ada@x.io", "h")]
    ensures Register(s, Parsed(Body(Some("ADA@x.io"), Some("pw"))), None, newId, hash, sign).response.status == 200
    ensures Register(s, Parsed(Body(Some("ada@x.io"), Some("pw"))), None, newId, hash, sign).response
         == Response(400, Error("Email already in use"))
  {
    assert "ADA@x.io"[0] != "ada@x.io"[0];
    assert s.users[0].email == "ada@x.io";
  }

  /** On success the `token` cookie holds the signature of exactly the new
      user's id and email, the store holds the hash and not the password, and
      the reply exposes only the email. */
  lemma SuccessExposesOnlyEmail(s: State, body: Parsed<Body>, newId: string, hash: string -> string, sign: Record -> string)
    requires Register(s, body, None, newId, hash, sign).response.status == 200
    ensures var o := Register(s, body, None, newId, hash, sign);
      o.response.body == Registered("User registered", body.value.email.value) &&
      o.state.cookie == Some(sign(map["id" := Str(newId), "email" := Str(body.value.email.value)])) &&
      o.state.users[|s.users|].password == hash(body.value.password.value) &&
      |o.state.users| == |s.users| + 1
  {
  }

  /** The user store and the response cookie jar. */
  class AuthStore {
    var users: seq<User>
    var cookie: Option<string>

    constructor (initial: seq<User>)
      ensures users == initial && cookie == None
    {
      users := initial;
      cookie := None;
    }

    /** `POST`: `User.create` adds one user and `setAuthCookie` writes the
        cookie, both only once every check has passed. */
    method Post(body: Parsed<Body>, connect: Option<string>, newId: string,
                hash: string -> string, sign: Record -> string) returns (resp: Response<Reply>)
      modifies this
      ensures var o := Register(State(old(users), old(cookie)), body, connect, newId, hash, sign);
        resp == o.response && State(users, cookie) == o.state
    {
      if body.ParseError? {
        return Response(500, Error(body.message));
      }
      var b := body.value;
      if !Truthy(b.email) || !Truthy(b.password) {
        return Response(400, Error("Email and password required"));
      }
      if connect.Some? {
        return Response(500, Error(connect.value));
      }
      if EmailInUse(users, b.email.value) {
        return Response(400, Error("Email already in use"));
      }
      var hashed := hash(b.password.value);
      var newUser := User(newId, b.email.value, hashed);
      users := users + [newUser];
      var token := sign(Claims(newUser));
      cookie := Some(token);
      resp := Response(200, Registered("User registered", newUser.email));
    }
  }
}
