/** GET /api/auth/me (app/api/auth/me/route.ts): who the `token` cookie says
    the caller is. Every path answers 200: without a usable token the body is
    `{ user: null }`, otherwise it holds the `id` and `email` of the decoded
    payload. A token whose verification throws lands in the catch, which also
    answers `{ user: null }`. */
module AuthMe {
  import opened Common
  import opened Token
  import AuthRegister

  /** The JSON body: `{ user: null }`, or `{ user: { id, email } }` with the
      two payload properties as read (`None` is `undefined`, which JSON drops). */
  datatype MeReply = NullUser | CurrentUser(id: Option<Value>, email: Option<Value>)

  /** The handler. `cookie` is the `token` cookie's value, `verify` the
      verification of a token. A falsy decoded value is taken to be `null`,
      so reading its `id` throws and the catch answers `{ user: null }`. */
  function Me(cookie: Option<string>, verify: string -> Verification): (r: Response<MeReply>)
    ensures r.status == 200
    ensures r.body.NullUser? <==>
      cookie.None? || cookie.value == "" || verify(cookie.value).Rejected? || verify(cookie.value).decoded.None?
    ensures r.body.CurrentUser? ==>
      var c := verify(cookie.value).decoded.value;
      r.body.id == Field(c, "id") && r.body.email == Field(c, "email")
  {
    if cookie.None? || cookie.value == "" then Response(200, NullUser)
    else
      match verify(cookie.value)
      case Rejected => Response(200, NullUser)
      case Returned(None) => Response(200, NullUser)
      case Returned(Some(decoded)) => Response(200, CurrentUser(Field(decoded, "id"), Field(decoded, "email")))
  }

  /** After a registration through /api/auth/register, the cookie it sets
      identifies the new user, provided verification decodes what signing
      produced and a signed token is never empty. */
  lemma RegisterThenMe(s: AuthRegister.State, body: AuthRegister.Parsed<AuthRegister.Body>, newId: string,
                       hash: string -> string, sign: Record -> string, verify: string -> Verification)
    requires AuthRegister.Register(s, body, None, newId, hash, sign).response.status == 200
    requires forall c :: verify(sign(c)) == Returned(Some(c))
    requires forall c :: sign(c) != ""
    ensures var o := AuthRegister.Register(s, body, None, newId, hash, sign);
      Me(o.state.cookie, verify) == Response(200, CurrentUser(Some(Str(newId)), Some(Str(body.value.email.value))))
  {
    var o := AuthRegister.Register(s, body, None, newId, hash, sign);
    var u := AuthRegister.User(newId, body.value.email.value, hash(body.value.password.value));
    assert o.state.cookie == Some(sign(AuthRegister.Claims(u)));
    assert verify(sign(AuthRegister.Claims(u))) == Returned(Some(AuthRegister.Claims(u)));
  }
}
