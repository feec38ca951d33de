/** POST /api/register (app/api/register/route.ts): the relational-store
    registration handler. Its checks run in a fixed order (presence, password
    length, database probe, duplicate email) and only a request that passes
    all of them inserts a row. The users table is a sequence of rows; the
    password hash is a function the caller supplies (bcrypt's salt is not
    modelled), and whether the `SELECT 1` probe succeeds is a parameter. */
module ApiRegister {
  import opened Common

  /** The parsed JSON body; a property that is absent is `None`. */
  datatype RegisterBody = RegisterBody(name: Option<string>, email: Option<string>, password: Option<string>)

  /** A row of the users table. */
  datatype UserRow = UserRow(name: string, email: string, password: string)

  /** The JSON body of every response: `{ success, message }`. */
  datatype Message = Message(success: bool, message: string)

  /** `!v` is false: the property is present and not the empty string. */
  predicate Truthy(v: Option<string>)
  {
    v.Some? && v.value != ""
  }

  predicate AllPresent(b: RegisterBody)
  {
    Truthy(b.name) && Truthy(b.email) && Truthy(b.password)
  }

  /** `email.toLowerCase().trim()`, the form used both for the lookup and for
      the insert. */
  function NormalizeEmail(email: string): string
  {
    Trim(ToLower(email))
  }

  /** A normalised email is no longer than the input and neither starts nor
      ends with whitespace. */
  lemma NormalizedTrimmed(email: string)
    ensures var r := NormalizeEmail(email);
      |r| <= |email| && (r == [] || (!IsJsSpace(r[0]) && !IsJsSpace(r[|r| - 1])))
  {
  }

  /** A normalised email has no upper-case ASCII letter. */
  lemma NormalizedLower(email: string)
    ensures forall i :: 0 <= i < |NormalizeEmail(email)| ==> !IsUpper(NormalizeEmail(email)[i])
  {
    var lower := ToLower(email);
    TrimIsSlice(lower);
    var k := |lower| - |TrimStart(lower)|;
    var r := Trim(lower);
    forall i | 0 <= i < |r|
      ensures !IsUpper(r[i])
    {
      assert r[i] == lower[k + i];
    }
  }

  /** Emails that differ only in ASCII letter case and in surrounding
      whitespace normalise to the same address. */
  lemma NormalizeIgnoresCaseAndPadding(before: string, email: string, after: string)
    requires AllSpace(before) && AllSpace(after)
    ensures NormalizeEmail(before + ToUpper(email) + after) == NormalizeEmail(email)
    ensures NormalizeEmail(before + email + after) == NormalizeEmail(email)
  {
    LowerIgnoresCase(email);
    LowerKeepsSpace(before);
    LowerKeepsSpace(after);
    assert ToLower(before + ToUpper(email) + after) == before + ToLower(email) + after;
    assert ToLower(before + email + after) == before + ToLower(email) + after;
    TrimPadding(before, ToLower(email), after);
  }

  lemma LowerKeepsSpace(s: string)
    requires AllSpace(s)
    ensures ToLower(s) == s
  {
  }

  /** The row a successful registration inserts: trimmed name, normalised
      email, and the hash of the password, never the password itself. */
  function NewRow(b: RegisterBody, hash: string -> string): UserRow
    requires AllPresent(b)
  {
    UserRow(Trim(b.name.value), NormalizeEmail(b.email.value), hash(b.password.value))
  }

  /** The inserted row holds the name without its padding, the email with
      no padding and no upper-case letter, and the hash of the password. */
  lemma NewRowShape(b: RegisterBody, hash: string -> string)
    requires AllPresent(b)
    ensures var row := NewRow(b, hash);
      row.name == Trim(b.name.value) && row.password == hash(b.password.value) &&
      (row.email == [] || (!IsJsSpace(row.email[0]) && !IsJsSpace(row.email[|row.email| - 1]))) &&
      forall i :: 0 <= i < |row.email| ==> !IsUpper(row.email[i])
  {
    NormalizedTrimmed(b.email.value);
    NormalizedLower(b.email.value);
  }

  // ---------------------------------------------------------------------
  // The duplicate check
  // ---------------------------------------------------------------------

  /** What `await sql\`SELECT id FROM users WHERE email = ...\`` resolves to:
      the driver's result object, holding the matching rows and their count. */
  datatype QueryResult = QueryResult(rows: seq<UserRow>, rowCount: nat)

  /** The rows whose email equals the given one, in table order. */
  function RowsWithEmail(users: seq<UserRow>, email: string): (r: seq<UserRow>)
    ensures |r| > 0 <==> exists i :: 0 <= i < |users| && users[i].email == email
    decreases |users|
  {
    if users == [] then []
    else (if users[0].email == email then [users[0]] else []) + RowsWithEmail(users[1..], email)
  }

  function SelectByEmail(users: seq<UserRow>, email: string): (r: QueryResult)
    ensures r.rowCount == |r.rows|
  {
    var rows := RowsWithEmail(users, email);
    QueryResult(rows, |rows|)
  }

  /** Reading a property of the result object: it has `rows` and `rowCount`,
      and no `length`. */
  function CountProperty(r: QueryResult, property: string): (c: Option<nat>)
    ensures c.None? <==> property != "rowCount" && property != "rows.length"
    ensures c.Some? && r.rowCount == |r.rows| ==> c.value == |r.rows|
  {
    if property == "rowCount" then Some(r.rowCount)
    else if property == "rows.length" then Some(|r.rows|)
    else None
  }

  /** `x > 0` in JavaScript, where `undefined > 0` is false. */
  predicate Positive(x: Option<nat>)
  {
    x.Some? && x.value > 0
  }

  /** The two readings of line 42: as written (`existingUser.length`) and as
      evidently intended (the number of rows found). */
  datatype DuplicateRule = AsWritten | Corrected

  function ExistingUserFound(rule: DuplicateRule, r: QueryResult): bool
  {
    match rule
    case AsWritten => Positive(CountProperty(r, "length"))
    case Corrected => Positive(CountProperty(r, "rows.length"))
  }

  /** As written, the duplicate check never fires, whatever the lookup found. */
  lemma AsWrittenNeverFindsDuplicate(r: QueryResult)
    ensures !ExistingUserFound(AsWritten, r)
  {
  }

  // ---------------------------------------------------------------------
  // The handler
  // ---------------------------------------------------------------------

  datatype Outcome = Outcome(response: Response<Message>, users: seq<UserRow>)

  predicate EmailTaken(users: seq<UserRow>, email: string)
  {
    exists i :: 0 <= i < |users| && users[i].email == email
  }

  /** The handler as a function of the table before the request. `body` is
      `None` when `request.json()` throws; `dbUp` is whether the probe query
      succeeds (the duplicate SELECT, the hash and the INSERT after it are
      taken to succeed). */
  function Register(rule: DuplicateRule, users: seq<UserRow>, body: Option<RegisterBody>, dbUp: bool,
                    hash: string -> string): (o: Outcome)
    ensures o.response.status in {201, 400, 409, 500}
    ensures o.response.body.success <==> o.response.status == 201
    ensures o.response.status != 201 ==> o.users == users
    ensures o.response.status == 201 ==>
      body.Some? && AllPresent(body.value) && o.users == users + [NewRow(body.value, hash)]
    ensures body.None? ==> o.response == Response(500, Message(false, "Internal server error"))
    ensures body.Some? && !AllPresent(body.value) ==>
      o.response == Response(400, Message(false, "All fields are required"))
    ensures body.Some? && AllPresent(body.value) && |body.value.password.value| < 8 ==>
      o.response == Response(400, Message(false, "Password must be at least 8 characters"))
    ensures body.Some? && AllPresent(body.value) && |body.value.password.value| >= 8 && !dbUp ==>
      o.response == Response(500, Message(false, "Database connection failed"))
    ensures o.response.status == 409 ==> o.response.body == Message(false, "User already exists")
    ensures o.response.status == 201 ==> o.response.body == Message(true, "Account created successfully")
    ensures rule == AsWritten ==> o.response.status != 409
    ensures o.response.status == 201 <==>
      body.Some? && AllPresent(body.value) && |body.value.password.value| >= 8 && dbUp &&
      (rule == Corrected ==> !EmailTaken(users, NormalizeEmail(body.value.email.value)))
    ensures rule == Corrected ==> (o.response.status == 409 <==>
      body.Some? && AllPresent(body.value) && |body.value.password.value| >= 8 && dbUp &&
      EmailTaken(users, NormalizeEmail(body.value.email.value)))
  {
    if body.None? then
      Outcome(Response(500, Message(false, "Internal server error")), users)
    else
      var b := body.value;
      if !AllPresent(b) then
        Outcome(Response(400, Message(false, "All fields are required")), users)
      else if |b.password.value| < 8 then
        Outcome(Response(400, Message(false, "Password must be at least 8 characters")), users)
      else if !dbUp then
        Outcome(Response(500, Message(false, "Database connection failed")), users)
      else if ExistingUserFound(rule, SelectByEmail(users, NormalizeEmail(b.email.value))) then
        Outcome(Response(409, Message(false, "User already exists")), users)
      else
        Outcome(Response(201, Message(true, "Account created successfully")), users + [NewRow(b, hash)])
  }

  /** Registering twice with emails that normalise alike: the second attempt
      is refused with 409 and the table keeps the single row. */
  lemma SecondRegistrationConflicts(users: seq<UserRow>, b1: RegisterBody, b2: RegisterBody, hash: string -> string)
    requires Register(Corrected, users, Some(b1), true, hash).response.status == 201
    requires AllPresent(b2) && |b2.password.value| >= 8
    requires NormalizeEmail(b2.email.value) == NormalizeEmail(b1.email.value)
    ensures var after := Register(Corrected, users, Some(b1), true, hash).users;
      Register(Corrected, after, Some(b2), true, hash) == Outcome(Response(409, Message(false, "User already exists")), after)
  {
    var after := Register(Corrected, users, Some(b1), true, hash).users;
    assert after[|users|].email == NormalizeEmail(b1.email.value);
    assert EmailTaken(after, NormalizeEmail(b2.email.value));
  }

  /** The line-42 discrepancy: with the check as written, an email that is
      already in the table is inserted a second time. */
  lemma AsWrittenAdmitsDuplicate(users: seq<UserRow>, b: RegisterBody, hash: string -> string)
    requires AllPresent(b) && |b.password.value| >= 8
    requires EmailTaken(users, NormalizeEmail(b.email.value))
    ensures Register(Corrected, users, Some(b), true, hash).response.status == 409
    ensures var o := Register(AsWritten, users, Some(b), true, hash);
      o.response.status == 201 && o.users[|users|].email == NormalizeEmail(b.email.value)
  {
  }

  /** Run twice from an empty table: as written, the same request registers
      the same address twice; as intended, the second run gets 409. */
  lemma AsWrittenRegistersTwice(b: RegisterBody, hash: string -> string)
    requires AllPresent(b) && |b.password.value| >= 8
    ensures var first := Register(AsWritten, [], Some(b), true, hash);
      var second := Register(AsWritten, first.users, Some(b), true, hash);
      second.response.status == 201 && |second.users| == 2 && second.users[0].email == second.users[1].email
    ensures var first := Register(Corrected, [], Some(b), true, hash);
      Register(Corrected, first.users, Some(b), true, hash).response.status == 409
  {
    var first := Register(AsWritten, [], Some(b), true, hash);
    assert first.users[0].email == NormalizeEmail(b.email.value);
    AsWrittenAdmitsDuplicate(first.users, b, hash);
    SecondRegistrationConflicts([], b, b, hash);
  }

  /** The users table and the handler that writes to it. */
  class UsersTable {
    var rows: seq<UserRow>

    constructor (initial: seq<UserRow>)
      ensures rows == initial
    {
      rows := initial;
    }

    /** `POST`: the early-return checks, then the insert. */
    method Post(body: Option<RegisterBody>, dbUp: bool, hash: string -> string) returns (resp: Response<Message>)
      modifies this
      ensures var o := Register(Corrected, old(rows), body, dbUp, hash); resp == o.response && rows == o.users
      ensures resp.status != 201 ==> rows == old(rows)
    {
      if body.None? {
        return Response(500, Message(false, "Internal server error"));
      }
      var b := body.value;
      if !Truthy(b.name) || !Truthy(b.email) || !Truthy(b.password) {
        return Response(400, Message(false, "All fields are required"));
      }
      if |b.password.value| < 8 {
        return Response(400, Message(false, "Password must be at least 8 characters"));
      }
      if !dbUp {
        return Response(500, Message(false, "Database connection failed"));
      }
      var existing := SelectByEmail(rows, NormalizeEmail(b.email.value));
      if |existing.rows| > 0 {
        return Response(409, Message(false, "User already exists"));
      }
      var hashed := hash(b.password.value);
      rows := rows + [UserRow(Trim(b.name.value), NormalizeEmail(b.email.value), hashed)];
      resp := Response(201, Message(true, "Account created successfully"));
    }
  }
}
