/** The route gate of middleware.ts: requests for the dashboard, admin and
    orders areas need a `token` cookie that verifies; anything else passes. */
module Middleware {
  import opened Common
  import opened Token

  const ProtectedPaths: seq<string> := ["/dashboard", "/admin", "/orders"]

  /** `prefixes.some((p) => path.startsWith(p))`. */
  function AnyPrefix(path: string, prefixes: seq<string>): (b: bool)
    ensures b <==> exists i :: 0 <= i < |prefixes| && StartsWith(path, prefixes[i])
    decreases |prefixes|
  {
    if prefixes == [] then false
    else StartsWith(path, prefixes[0]) || AnyPrefix(path, prefixes[1..])
  }

  /** A path is protected when it starts with one of the protected prefixes;
      the test is a plain string prefix, not a path-segment match. */
  function IsProtected(path: string): (b: bool)
    ensures b <==> StartsWith(path, "/dashboard") || StartsWith(path, "/admin") || StartsWith(path, "/orders")
  {
    AnyPrefix(path, ProtectedPaths)
  }

  datatype Decision = Next | Redirect(location: string)

  /** The gate. `tokenCookie` is the value of the `token` cookie, if any;
      `verify` is what `verifyToken` does with a token. */
  function Gate(path: string, tokenCookie: Option<string>, verify: string -> Verification): (d: Decision)
    ensures d == Next || d == Redirect("/login")
    ensures d == Next <==>
      !IsProtected(path) || (tokenCookie.Some? && tokenCookie.value != "" && verify(tokenCookie.value).Returned?)
  {
    if IsProtected(path) then
      match tokenCookie
      case None => Redirect("/login")
      case Some(t) =>
        if t == "" then Redirect("/login")
        else if verify(t).Rejected? then Redirect("/login")
        else Next
    else Next
  }

  /** Only the verification outcome of the cookie's own token matters: two
      verifiers that agree on it give the same decision. */
  lemma GateDependsOnVerdictOnly(path: string, t: string, v1: string -> Verification, v2: string -> Verification)
    requires v1(t).Rejected? == v2(t).Rejected?
    ensures Gate(path, Some(t), v1) == Gate(path, Some(t), v2)
  {
  }

  /** Example: the prefix rule also covers paths that merely begin with a protected
      name, and a path below a protected area. */
  lemma PrefixExamples()
    ensures IsProtected("/administrator")
    ensures IsProtected("/orders/42")
    ensures IsProtected("/dashboard")
  {
    assert "/administrator"[..6] == "/admin";
    assert "/orders/42"[..7] == "/orders";
    assert "/dashboard"[..10] == "/dashboard";
  }

  /** Example: other pages pass, and the prefix test is case-sensitive. */
  lemma UnprotectedExamples()
    ensures !IsProtected("/login")
    ensures !IsProtected("/")
    ensures !IsProtected("/Admin")
  {
    assert "/login"[1] == 'l';
    assert "/Admin"[1] == 'A';
  }
}
