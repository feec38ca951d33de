/** /api/profile (app/api/profile/route.ts). Both handlers start with the
    Bearer check and token verification and then address the user whose `_id`
    is the token's `userId`. GET answers that user's document without its
    password; PUT overwrites the six profile fields and `updatedAt` of that
    one document and nothing else. Ids are compared as strings. */
module ApiProfile {
  import opened Common
  import opened Token

  /** `findOne({ _id: userId })` / the filter of `updateOne`: the first user
      whose id is the token's `userId`. A missing `userId` is `null` in the
      filter, and a value that is not a string equals no id: both find nobody. */
  function FindByUserId(users: seq<Doc>, uid: Option<Value>): (r: Option<nat>)
    ensures r.Some? ==> r.value < |users| && uid == Some(Str(users[r.value].id))
    ensures r.Some? ==> forall j :: 0 <= j < r.value ==> uid != Some(Str(users[j].id))
    ensures r.None? ==> forall j :: 0 <= j < |users| ==> uid != Some(Str(users[j].id))
  {
    if uid.Some? && uid.value.Str? then FindById(users, uid.value.s) else None
  }

  /** The JSON bodies: `{ error }`, `{ user }`, or
      `{ success: true, message }`. */
  datatype ProfileReply = Failure(error: string) | Profile(user: Doc) | Updated(message: string)

  /** `GET`: `dbUp` is whether `connectToDatabase()` succeeds; the `findOne`
      after it is taken to succeed. */
  function Show(users: seq<Doc>, header: Option<string>, verify: string -> Verification, dbUp: bool)
    : (r: Response<ProfileReply>)
    ensures r.status in {200, 401, 404, 500}
    ensures BearerToken(header).None? ==> r == Response(401, Failure("No token provided"))
    ensures Authenticate(header, verify) == InvalidToken ==> r == Response(401, Failure("Invalid token"))
    ensures Authenticate(header, verify) == VerifyThrew ==> r == Response(500, Failure("Internal server error"))
    ensures Authenticate(header, verify).Authorized? && !dbUp ==> r == Response(500, Failure("Internal server error"))
    ensures r.status == 404 <==>
      Authenticate(header, verify).Authorized? && dbUp &&
      FindByUserId(users, Field(Authenticate(header, verify).claims, "userId")).None?
    ensures r.status == 404 ==> r.body == Failure("User not found")
    ensures r.status == 500 ==> r.body == Failure("Internal server error")
    ensures r.status == 200 <==>
      Authenticate(header, verify).Authorized? && dbUp &&
      FindByUserId(users, Field(Authenticate(header, verify).claims, "userId")).Some?
    ensures r.status == 200 ==>
      var u := users[FindByUserId(users, Field(Authenticate(header, verify).claims, "userId")).value];
      r.body == Profile(WithoutPassword(u))
  {
    match Authenticate(header, verify)
    case Authorized(claims) =>
      if !dbUp then Response(500, Failure("Internal server error"))
      else
        (match FindByUserId(users, Field(claims, "userId"))
         case None => Response(404, Failure("User not found"))
         case Some(i) => Response(200, Profile(WithoutPassword(users[i]))))
    case _ =>
      var f := Refusal(Authenticate(header, verify));
      Response(f.status, Failure(f.body))
  }

  /** The properties PUT takes from the body. */
  const Editable: set<string> := {"firstName", "lastName", "email", "company", "phone", "bio"}

  /** Every field PUT writes. */
  const Written: set<string> := Editable + {"updatedAt"}

  /** The `$set` document: the six editable properties as the body has them
      (`null` where it lacks one) and `updatedAt` set to the clock reading. */
  function ProfileSet(body: Record, now: int): (upd: Record)
    ensures upd.Keys == Written
    ensures upd["updatedAt"] == Time(now)
    ensures forall k :: k in Editable ==> upd[k] == Stored(Field(body, k))
  {
    (map k | k in Editable :: Stored(Field(body, k)))["updatedAt" := Time(now)]
  }

  /** Applying a `$set`: the listed fields take the new values, the others
      keep theirs. */
  function Apply(d: Doc, upd: Record): (r: Doc)
    ensures r.id == d.id
    ensures r.fields.Keys == d.fields.Keys + upd.Keys
    ensures forall k :: k in upd ==> r.fields[k] == upd[k]
    ensures forall k :: k in d.fields && k !in upd ==> r.fields[k] == d.fields[k]
  {
    Doc(d.id, d.fields + upd)
  }

  datatype Outcome = Outcome(response: Response<ProfileReply>, users: seq<Doc>)

  /** `PUT` as a function of the users before the request. `body` is `None`
      when `request.json()` throws or yields `null`; a number, string, boolean
      or array body destructures to no fields and is `Some(map[])`. `now` is
      the clock reading of `new Date()`. */
  function Update(users: seq<Doc>, header: Option<string>, verify: string -> Verification,
                  body: Option<Record>, dbUp: bool, now: int): (o: Outcome)
    ensures o.response.status in {200, 401, 404, 500}
    ensures o.response.status != 200 ==> o.users == users
    ensures BearerToken(header).None? ==> o.response == Response(401, Failure("No token provided"))
    ensures Authenticate(header, verify) == InvalidToken ==> o.response == Response(401, Failure("Invalid token"))
    ensures Authenticate(header, verify) == VerifyThrew ==> o.response == Response(500, Failure("Internal server error"))
    ensures Authenticate(header, verify).Authorized? && (body.None? || !dbUp) ==>
      o.response == Response(500, Failure("Internal server error"))
    ensures o.response.status == 404 <==>
      Authenticate(header, verify).Authorized? && body.Some? && dbUp &&
      FindByUserId(users, Field(Authenticate(header, verify).claims, "userId")).None?
    ensures o.response.status == 404 ==> o.response.body == Failure("User not found")
    ensures o.response.status == 500 ==> o.response.body == Failure("Internal server error")
    ensures o.response.status == 200 <==>
      Authenticate(header, verify).Authorized? && body.Some? && dbUp &&
      FindByUserId(users, Field(Authenticate(header, verify).claims, "userId")).Some?
    ensures o.response.status == 200 ==> Authenticate(header, verify).Authorized?
    ensures o.response.status == 200 ==>
      var i := FindByUserId(users, Field(Authenticate(header, verify).claims, "userId"));
      i.Some? && body.Some? && o.response.body == Updated("Profile updated successfully") &&
      o.users == users[i.value := Apply(users[i.value], ProfileSet(body.value, now))]
  {
    match Authenticate(header, verify)
    case Authorized(claims) =>
      if body.None? || !dbUp then Outcome(Response(500, Failure("Internal server error")), users)
      else
        (match FindByUserId(users, Field(claims, "userId"))
         case None => Outcome(Response(404, Failure("User not found")), users)
         case Some(i) =>
           Outcome(Response(200, Updated("Profile updated successfully")),
                   users[i := Apply(users[i], ProfileSet(body.value, now))]))
    case _ =>
      var f := Refusal(Authenticate(header, verify));
      Outcome(Response(f.status, Failure(f.body)), users)
  }

  /** A successful PUT changes one document only: the other users are kept
      as they were, the password and every other field outside the written
      set are kept, and the written fields hold the body's values. */
  lemma UpdateTouchesOnlyProfile(users: seq<Doc>, header: Option<string>, verify: string -> Verification,
                                 body: Option<Record>, dbUp: bool, now: int)
    requires Update(users, header, verify, body, dbUp, now).response.status == 200
    ensures var o := Update(users, header, verify, body, dbUp, now);
      var i := FindByUserId(users, Field(Authenticate(header, verify).claims, "userId")).value;
      |o.users| == |users| &&
      (forall j :: 0 <= j < |users| && j != i ==> o.users[j] == users[j]) &&
      o.users[i].id == users[i].id &&
      (forall k :: k !in Written ==> (k in o.users[i].fields <==> k in users[i].fields)) &&
      (forall k :: k !in Written && k in users[i].fields ==> o.users[i].fields[k] == users[i].fields[k]) &&
      ("password" in users[i].fields ==> o.users[i].fields["password"] == users[i].fields["password"]) &&
      (forall k :: k in Editable ==> o.users[i].fields[k] == Stored(Field(body.value, k))) &&
      o.users[i].fields["updatedAt"] == Time(now)
  {
    assert "password" !in Written;
  }

  /** After a successful PUT, GET with the same header shows the new values
      and still no password. */
  lemma UpdateThenShow(users: seq<Doc>, header: Option<string>, verify: string -> Verification, body: Record, now: int)
    requires Update(users, header, verify, Some(body), true, now).response.status == 200
    ensures var after := Update(users, header, verify, Some(body), true, now).users;
      var r := Show(after, header, verify, true);
      r.status == 200 && r.body.Profile? && "password" !in r.body.user.fields &&
      (forall k :: k in Editable ==> k in r.body.user.fields && r.body.user.fields[k] == Stored(Field(body, k))) &&
      "updatedAt" in r.body.user.fields && r.body.user.fields["updatedAt"] == Time(now)
  {
    var g := Authenticate(header, verify);
    var uid := Field(g.claims, "userId");
    var i := FindByUserId(users, uid).value;
    var after := Update(users, header, verify, Some(body), true, now).users;
    UpdateTouchesOnlyProfile(users, header, verify, Some(body), true, now);
    FirstMatch(after, uid, i);
    var r := Show(after, header, verify, true);
    assert r.body == Profile(WithoutPassword(after[i]));
    assert "updatedAt" in after[i].fields && "updatedAt" != "password";
    assert forall k :: k in Editable ==> k in after[i].fields && k != "password";
  }

  /** A document whose id is the wanted one, with no earlier match, is the one
      the lookup finds. */
  lemma FirstMatch(docs: seq<Doc>, uid: Option<Value>, i: nat)
    requires i < |docs| && uid == Some(Str(docs[i].id))
    requires forall j :: 0 <= j < i ==> uid != Some(Str(docs[j].id))
    ensures FindByUserId(docs, uid) == Some(i)
  {
    var r := FindByUserId(docs, uid);
    assert r.Some? ==> !(r.value < i) && !(r.value > i);
  }

  /** The users collection and the PUT handler that updates it. */
  class ProfileStore {
    var users: seq<Doc>

    constructor (initial: seq<Doc>)
      ensures users == initial
    {
      users := initial;
    }

    /** `PUT`: the checks, then `updateOne(filter, { $set })` on the first
        matching document, then the `matchedCount` test. */
    method Put(header: Option<string>, verify: string -> Verification, body: Option<Record>, dbUp: bool, now: int)
      returns (resp: Response<ProfileReply>)
      modifies this
      ensures var o := Update(old(users), header, verify, body, dbUp, now); resp == o.response && users == o.users
    {
      var token := BearerToken(header);
      if token.None? {
        return Response(401, Failure("No token provided"));
      }
      var decoded := verify(token.value);
      if decoded.Rejected? {
        return Response(500, Failure("Internal server error"));
      }
      if decoded.decoded.None? {
        return Response(401, Failure("Invalid token"));
      }
      if body.None? || !dbUp {
        return Response(500, Failure("Internal server error"));
      }
      var matched := FindByUserId(users, Field(decoded.decoded.value, "userId"));
      if matched.None? {
        return Response(404, Failure("User not found"));
      }
      var i := matched.value;
      users := users[i := Apply(users[i], ProfileSet(body.value, now))];
      resp := Response(200, Updated("Profile updated successfully"));
    }
  }
}
