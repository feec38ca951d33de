/** POST /api/login (app/api/login/route.ts): the document-store login
    handler. It checks that both fields are present, finds the user by email,
    checks the password, records a session, and answers with a token and the
    user record stripped of its password. Password comparison and token
    signing are supplied by the caller; the clock reading for the session is a
    parameter. */
module ApiLogin {
  import opened Common

  datatype LoginBody = LoginBody(email: Option<string>, password: Option<string>)

  /** A row of the sessions collection. */
  datatype Session = Session(userId: string, loginTime: int)

  /** The JSON body: `{ success: false, message }`, or the success reply with
      its token and the user record. */
  datatype LoginReply =
    | Refused(message: string)
    | LoggedIn(message: string, token: string, user: Doc)

  predicate Truthy(v: Option<string>)
  {
    v.Some? && v.value != ""
  }

  /** The token payload of a user: `id`, `name`, `email`, `created_at`;
      a field the record lacks is `undefined` and does not appear. */
  function TokenClaims(d: Doc): (c: Record)
    ensures c.Keys == {"id"} + (d.fields.Keys * {"name", "email", "created_at"})
    ensures c["id"] == Str(d.id)
    ensures forall k :: k in c && k != "id" ==> c[k] == d.fields[k]
  {
    (map k | k in d.fields && k in {"name", "email", "created_at"} :: d.fields[k])["id" := Str(d.id)]
  }

  datatype Outcome = Outcome(response: Response<LoginReply>, sessions: seq<Session>)

  /** Both fields are present, the store is up, a user has the email and the
      password comparison accepts the password: the point from which a
      session is recorded. */
  predicate PasswordAccepted(users: seq<Doc>, body: Option<LoginBody>, dbUp: bool,
                             compare: (string, Option<Value>) -> Option<bool>)
  {
    body.Some? && Truthy(body.value.email) && Truthy(body.value.password) && dbUp &&
    var found := FindFirst(users, "email", Str(body.value.email.value));
    found.Some? && compare(body.value.password.value, Field(users[found.value].fields, "password")) == Some(true)
  }

  /** The handler as a function of the stores before the request. `body` is
      `None` when `request.json()` throws, `dbUp` whether the collections can
      be reached (one flag for both collections; `findOne` and the session
      `insertOne` are taken to succeed); `compare(p, stored)` is the password check against the
      stored `password` field (`None` when bcrypt throws), `sign` the token
      signer (`None` when it throws), `now` the clock. The session is
      inserted before the token is signed, so a signer that throws leaves
      the session stored behind a 500. */
  function Login(users: seq<Doc>, sessions: seq<Session>, body: Option<LoginBody>, dbUp: bool,
                 compare: (string, Option<Value>) -> Option<bool>, sign: Record -> Option<string>,
                 now: int): (o: Outcome)
    ensures o.response.status in {200, 400, 401, 500}
    ensures body.None? ==> o.response == Response(500, Refused("Internal server error"))
    ensures body.Some? && !(Truthy(body.value.email) && Truthy(body.value.password)) ==>
      o.response == Response(400, Refused("Email and password are required"))
    ensures body.Some? && Truthy(body.value.email) && Truthy(body.value.password) && !dbUp ==>
      o.response == Response(500, Refused("Internal server error"))
    ensures (body.Some? && Truthy(body.value.email) && Truthy(body.value.password) && dbUp &&
      FindFirst(users, "email", Str(body.value.email.value)).None?) ==>
      o.response == Response(401, Refused("Invalid credentials"))
    ensures (body.Some? && Truthy(body.value.email) && Truthy(body.value.password) && dbUp &&
      (var found := FindFirst(users, "email", Str(body.value.email.value));
       found.Some? && compare(body.value.password.value, Field(users[found.value].fields, "password")) == Some(false))) ==>
      o.response == Response(401, Refused("Invalid credentials"))
    ensures (body.Some? && Truthy(body.value.email) && Truthy(body.value.password) && dbUp &&
      (var found := FindFirst(users, "email", Str(body.value.email.value));
       found.Some? && compare(body.value.password.value, Field(users[found.value].fields, "password")).None?)) ==>
      o.response == Response(500, Refused("Internal server error"))
    ensures o.response.status == 401 ==> o.response.body == Refused("Invalid credentials")
    ensures o.sessions ==
      if PasswordAccepted(users, body, dbUp, compare)
      then sessions + [Session(users[FindFirst(users, "email", Str(body.value.email.value)).value].id, now)]
      else sessions
    ensures o.response.status == 200 <==>
      PasswordAccepted(users, body, dbUp, compare) &&
      sign(TokenClaims(users[FindFirst(users, "email", Str(body.value.email.value)).value])).Some?
    ensures (PasswordAccepted(users, body, dbUp, compare) &&
      sign(TokenClaims(users[FindFirst(users, "email", Str(body.value.email.value)).value])).None?) ==>
      o.response == Response(500, Refused("Internal server error"))
    ensures o.response.status == 200 ==>
      var u := users[FindFirst(users, "email", Str(body.value.email.value)).value];
      o.response.body == LoggedIn("Login successful", sign(TokenClaims(u)).value, WithoutPassword(u))
  {
    if body.None? then
      Outcome(Response(500, Refused("Internal server error")), sessions)
    else
      var b := body.value;
      if !Truthy(b.email) || !Truthy(b.password) then
        Outcome(Response(400, Refused("Email and password are required")), sessions)
      else if !dbUp then
        Outcome(Response(500, Refused("Internal server error")), sessions)
      else
        match FindFirst(users, "email", Str(b.email.value))
        case None => Outcome(Response(401, Refused("Invalid credentials")), sessions)
        case Some(i) =>
          var u := users[i];
          match compare(b.password.value, Field(u.fields, "password"))
          case None => Outcome(Response(500, Refused("Internal server error")), sessions)
          case Some(false) => Outcome(Response(401, Refused("Invalid credentials")), sessions)
          case Some(true) =>
            var stored := sessions + [Session(u.id, now)];
            match sign(TokenClaims(u))
            case None => Outcome(Response(500, Refused("Internal server error")), stored)
            case Some(token) =>
              Outcome(Response(200, LoggedIn("Login successful", token, WithoutPassword(u))), stored)
  }

  /** An unknown email and a wrong password for a known one get the same
      response and leave the sessions alone: the two failures cannot be told
      apart. */
  lemma FailuresIndistinguishable(users: seq<Doc>, sessions: seq<Session>, unknown: LoginBody, wrong: LoginBody,
                                  compare: (string, Option<Value>) -> Option<bool>, sign: Record -> Option<string>, now: int)
    requires Truthy(unknown.email) && Truthy(unknown.password)
    requires Truthy(wrong.email) && Truthy(wrong.password)
    requires FindFirst(users, "email", Str(unknown.email.value)).None?
    requires var f := FindFirst(users, "email", Str(wrong.email.value));
      f.Some? && compare(wrong.password.value, Field(users[f.value].fields, "password")) == Some(false)
    ensures Login(users, sessions, Some(unknown), true, compare, sign, now)
         == Login(users, sessions, Some(wrong), true, compare, sign, now)
    ensures Login(users, sessions, Some(unknown), true, compare, sign, now)
         == Outcome(Response(401, Refused("Invalid credentials")), sessions)
  {
  }

  /** A successful reply never carries the stored password, and carries every
      other stored field of the user unchanged. */
  lemma ReplyOmitsPassword(users: seq<Doc>, sessions: seq<Session>, body: Option<LoginBody>, dbUp: bool,
                           compare: (string, Option<Value>) -> Option<bool>, sign: Record -> Option<string>, now: int)
    requires Login(users, sessions, body, dbUp, compare, sign, now).response.status == 200
    ensures var r := Login(users, sessions, body, dbUp, compare, sign, now).response.body;
      var u := users[FindFirst(users, "email", Str(body.value.email.value)).value];
      r.LoggedIn? && "password" !in r.user.fields && r.user.id == u.id &&
      forall k :: k in u.fields && k != "password" ==> k in r.user.fields && r.user.fields[k] == u.fields[k]
  {
  }

  /** The users and sessions collections. */
  class LoginStore {
    var users: seq<Doc>
    var sessions: seq<Session>

    constructor (initialUsers: seq<Doc>, initialSessions: seq<Session>)
      ensures users == initialUsers && sessions == initialSessions
    {
      users := initialUsers;
      sessions := initialSessions;
    }

    /** `POST`: the users are only read; a session is inserted only once the
        password has been accepted, and stays inserted if signing throws. */
    method Post(body: Option<LoginBody>, dbUp: bool, compare: (string, Option<Value>) -> Option<bool>,
                sign: Record -> Option<string>, now: int) returns (resp: Response<LoginReply>)
      modifies this`sessions
      ensures var o := Login(users, old(sessions), body, dbUp, compare, sign, now);
        resp == o.response && sessions == o.sessions
    {
      if body.None? {
        return Response(500, Refused("Internal server error"));
      }
      var b := body.value;
      if !Truthy(b.email) || !Truthy(b.password) {
        return Response(400, Refused("Email and password are required"));
      }
      if !dbUp {
        return Response(500, Refused("Internal server error"));
      }
      var found := FindFirst(users, "email", Str(b.email.value));
      if found.None? {
        return Response(401, Refused("Invalid credentials"));
      }
      var u := users[found.value];
      var isValidPassword := compare(b.password.value, Field(u.fields, "password"));
      if isValidPassword.None? {
        return Response(500, Refused("Internal server error"));
      }
      if !isValidPassword.value {
        return Response(401, Refused("Invalid credentials"));
      }
      sessions := sessions + [Session(u.id, now)];
      var token := sign(TokenClaims(u));
      if token.None? {
        return Response(500, Refused("Internal server error"));
      }
      resp := Response(200, LoggedIn("Login successful", token.value, WithoutPassword(u)));
    }
  }
}
