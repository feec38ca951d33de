/** GET /api/dashboard (app/api/dashboard/route.ts): the Bearer check, then
    the user whose `_id` is `new ObjectId(payload.userId)`, answered as a fixed
    projection of four fields. Nothing is written. The `ObjectId` conversion
    is a function the caller supplies: it yields the id that the value
    denotes, or `None` when the constructor throws. */
module ApiDashboard {
  import opened Common
  import opened Token

  /** The JSON bodies: `{ success: false, message }`, or
      `{ success: true, user }` with the projected user. */
  datatype DashboardReply = Failure(message: string) | Overview(user: Record)

  /** The projection `{ id, name, email, created_at }`: the id as a string
      and the three other properties as stored; one the user lacks is
      `undefined` and JSON drops it. */
  function Projection(d: Doc): (p: Record)
    ensures p.Keys == {"id"} + (d.fields.Keys * {"name", "email", "created_at"})
    ensures p["id"] == Str(d.id)
    ensures forall k :: k in p && k != "id" ==> p[k] == d.fields[k]
    ensures "password" !in p
  {
    (map k | k in d.fields && k in {"name", "email", "created_at"} :: d.fields[k])["id" := Str(d.id)]
  }

  /** The handler. `dbUp` is whether `getCollection("users")` succeeds (the
      `findOne` after it is taken to succeed) and
      `cast` the `ObjectId` conversion. A payload without `userId` makes the
      constructor generate a fresh id, which no stored user has. */
  function Dashboard(users: seq<Doc>, header: Option<string>, verify: string -> Verification,
                     dbUp: bool, cast: Value -> Option<string>): (r: Response<DashboardReply>)
    ensures r.status in {200, 401, 404, 500}
    ensures BearerToken(header).None? ==> r == Response(401, Failure("No token provided"))
    ensures Authenticate(header, verify) == InvalidToken ==> r == Response(401, Failure("Invalid token"))
    ensures r.status == 500 ==> r.body == Failure("Internal server error")
    ensures r.status == 404 ==> r.body == Failure("User not found")
    ensures (Authenticate(header, verify).Authorized? && dbUp &&
      Field(Authenticate(header, verify).claims, "userId").None?) ==> r.status == 404
    ensures (Authenticate(header, verify).Authorized? && dbUp &&
      (var uid := Field(Authenticate(header, verify).claims, "userId");
       uid.Some? && cast(uid.value).Some? && FindById(users, cast(uid.value).value).None?)) ==> r.status == 404
    ensures (Authenticate(header, verify).Authorized? && dbUp &&
      (var uid := Field(Authenticate(header, verify).claims, "userId");
       uid.Some? && cast(uid.value).None?)) ==> r.status == 500
    ensures Authenticate(header, verify) == VerifyThrew || (Authenticate(header, verify).Authorized? && !dbUp) ==>
      r.status == 500
    ensures r.status == 200 <==>
      Authenticate(header, verify).Authorized? && dbUp &&
      var uid := Field(Authenticate(header, verify).claims, "userId");
      uid.Some? && cast(uid.value).Some? && FindById(users, cast(uid.value).value).Some?
    ensures r.status == 200 ==>
      var uid := Field(Authenticate(header, verify).claims, "userId");
      r.body == Overview(Projection(users[FindById(users, cast(uid.value).value).value]))
  {
    match Authenticate(header, verify)
    case Authorized(payload) =>
      if !dbUp then Response(500, Failure("Internal server error"))
      else
        (match Field(payload, "userId")
        case None => Response(404, Failure("User not found"))
        case Some(v) =>
          match cast(v)
          case None => Response(500, Failure("Internal server error"))
          case Some(oid) =>
            match FindById(users, oid)
            case None => Response(404, Failure("User not found"))
            case Some(i) => Response(200, Overview(Projection(users[i]))))
    case _ =>
      var f := Refusal(Authenticate(header, verify));
      Response(f.status, Failure(f.body))
  }

  /** Whatever the stored document holds, the answer never carries a
      password, and everything else it carries is the stored user's. */
  lemma OverviewOmitsPassword(users: seq<Doc>, header: Option<string>, verify: string -> Verification,
                              dbUp: bool, cast: Value -> Option<string>)
    requires Dashboard(users, header, verify, dbUp, cast).status == 200
    ensures var r := Dashboard(users, header, verify, dbUp, cast);
      var uid := Field(Authenticate(header, verify).claims, "userId");
      var u := users[FindById(users, cast(uid.value).value).value];
      r.body.Overview? && "password" !in r.body.user && r.body.user.Keys <= {"id", "name", "email", "created_at"} &&
      r.body.user["id"] == Str(u.id) &&
      (forall k :: k in {"name", "email", "created_at"} && k in u.fields ==> r.body.user[k] == u.fields[k])
  {
  }
}
