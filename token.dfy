/** Signed tokens as the handlers see them. Signing and verification belong to
    a JWT library and are not modelled as code: signing is a function the
    caller supplies, and verifying a token yields a `Verification` outcome.
    `verifyToken` throws on a bad token rather than returning a value, so a
    rejected token is its own case. The module also holds the `Bearer` header
    rule shared by the orders, profile and dashboard handlers. */
module Token {
  import opened Common

  /** A token payload as decoded: a JSON object of claims. */
  type Claims = Record

  /** What calling `verifyToken(token)` does: it throws (bad signature,
      expired, malformed), or it returns a decoded value, which the handlers
      test for truthiness; `Returned(None)` is a falsy result. */
  datatype Verification = Rejected | Returned(decoded: Option<Claims>)

  const BearerPrefix: string := "Bearer "

  /** `authHeader.startsWith("Bearer ")` then `authHeader.substring(7)`: the
      token carried by an Authorization header, if the header is present and
      has the (case-sensitive) Bearer prefix. */
  function BearerToken(header: Option<string>): (t: Option<string>)
    ensures t.Some? <==> header.Some? && StartsWith(header.value, BearerPrefix)
    ensures t.Some? ==> header.value == BearerPrefix + t.value
  {
    if header.Some? && StartsWith(header.value, BearerPrefix) then
      assert header.value == header.value[..7] + header.value[7..];
      Some(header.value[7..])
    else None
  }

  /** A header built from a token carries exactly that token back. */
  lemma BearerRoundTrip(t: string)
    ensures BearerToken(Some(BearerPrefix + t)) == Some(t)
  {
    assert (BearerPrefix + t)[..7] == BearerPrefix;
    assert (BearerPrefix + t)[7..] == t;
  }

  /** The prefix test is case-sensitive and needs the space. */
  lemma BearerIsCaseSensitive(t: string)
    ensures BearerToken(Some("bearer " + t)) == None
    ensures BearerToken(Some("Bearer" + t)) == None || (|t| > 0 && t[0] == ' ')
  {
    assert ("bearer " + t)[0] == 'b';
    if |t| > 0 && t[0] != ' ' {
      assert ("Bearer" + t)[6] == t[0];
    } else if |t| == 0 {
      assert |"Bearer" + t| < 7;
    }
  }

  /** Where the header check of a Bearer-protected handler ends. */
  datatype Gate =
    | NoToken                       // 401 "No token provided"
    | InvalidToken                  // 401 "Invalid token"
    | VerifyThrew                   // the exception reaches the handler's catch: 500
    | Authorized(claims: Claims)

  /** The first steps of the orders, profile and dashboard handlers: read the
      Bearer token, verify it, test the decoded value. */
  function Authenticate(header: Option<string>, verify: string -> Verification): (g: Gate)
    ensures g == NoToken <==> BearerToken(header).None?
    ensures g != NoToken ==> (
      var v := verify(BearerToken(header).value);
      (g == VerifyThrew <==> v.Rejected?) &&
      (g == InvalidToken <==> v == Returned(None)) &&
      (g.Authorized? <==> v.Returned? && v.decoded.Some?) &&
      (g.Authorized? ==> g.claims == v.decoded.value))
  {
    match BearerToken(header)
    case None => NoToken
    case Some(t) =>
      match verify(t)
      case Rejected => VerifyThrew
      case Returned(None) => InvalidToken
      case Returned(Some(c)) => Authorized(c)
  }

  /** The answer of the orders, profile and dashboard handlers to a request
      that does not get past the token check: its status and message. */
  function Refusal(g: Gate): (r: Response<string>)
    requires !g.Authorized?
    ensures r.status in {401, 500}
    ensures g == NoToken ==> r == Response(401, "No token provided")
    ensures g == InvalidToken ==> r == Response(401, "Invalid token")
    ensures g == VerifyThrew ==> r == Response(500, "Internal server error")
  {
    match g
    case NoToken => Response(401, "No token provided")
    case InvalidToken => Response(401, "Invalid token")
    case VerifyThrew => Response(500, "Internal server error")
  }

  /** For the header "Bearer " + t the token handed to verification is t. */
  lemma VerifiesCarriedToken(t: string, verify: string -> Verification)
    ensures Authenticate(Some(BearerPrefix + t), verify) ==
      match verify(t)
      case Rejected => VerifyThrew
      case Returned(None) => InvalidToken
      case Returned(Some(c)) => Authorized(c)
  {
    BearerRoundTrip(t);
  }
}
