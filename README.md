# A verified model of the decision logic of a hosting storefront

The storefront is a Next.js application that sells RDP and VPS plans. Most of
it is pages and glue code. This project models the parts that make decisions,
and proves properties of them:

- the `sql` tagged-template query builder (`SqlTemplate`);
- the route gate in front of the dashboard, admin and orders areas (`Middleware`);
- the registration page (`RegisterPage`): the password-strength score and its
  meter, the submit-button rule, the form's change handler and the request it
  posts;
- the API handlers, each as a pure function from the request and the store
  before it to the response and the store after it:
  - `/api/register` (`ApiRegister`) and `/api/login` (`ApiLogin`);
  - `/api/auth/register` (`AuthRegister`), `/api/auth/login` (`AuthLogin`) and
    `/api/auth/me` (`AuthMe`);
  - `/api/orders` (`ApiOrders`), `/api/profile` (`ApiProfile`) and
    `/api/dashboard` (`ApiDashboard`).

  The handlers that write a store or a cookie also have a class whose method
  performs the same steps imperatively and is proved to equal the function:
  `ApiRegister.UsersTable.Post`, `ApiLogin.LoginStore.Post`,
  `AuthRegister.AuthStore.Post`, `AuthLogin.CookieSession.Post`,
  `ApiOrders.OrdersCollection.Post` and `ApiProfile.ProfileStore.Put`. The
  read-only handlers (`AuthMe.Me`, `ApiDashboard.Dashboard`, `ApiOrders.List`
  and `ApiProfile.Show`) change nothing and are functions only;
- the orders page's search, filters, counts and status badges (`OrdersPage`);
- the admin dashboard's state and its three handlers (`AdminPage`);
- the browser-side token and user store (`ClientAuth`).

`Common` holds the shared vocabulary: optional values, stored JSON values and
documents, responses, and the JavaScript string operations the code relies on.
These are prefix and substring tests, ASCII case mapping, `trim` and decimal
rendering. `Token` holds the Bearer-header rule and the outcome of verifying a
token.

The foreign calls are parameters of the handlers:

- password hashing and comparison (bcrypt);
- token signing and verification (jsonwebtoken);
- whether the database can be reached (only the connection step can fail;
  the store calls after it are taken to succeed, see "## Left out");
- the ids the store assigns;
- clock readings.

Verification is modelled as `Rejected` (the library throws) or
`Returned(decoded)`, with `decoded` `None` for a falsy result.

Each handler is modelled against its own store:

- a sequence of rows for the relational handler;
- a sequence of documents for the document-store handlers;
- a sequence of users plus one optional cookie for the cookie-based handlers.

No handler is wired to the connection code of lib/db.ts. The modules differ
in their imports, so each one models the store interface it calls.

Where the code and its description differ, the model follows the code:

- `/api/auth/login` has no presence check, so a request without a password
  still reaches the password comparison.
- The duplicate lookup of `/api/register` reads `.length` on the driver's
  result object. See Findings.
- `/api/auth/me` answers `{ user: null }` with status 200 on every failure,
  including a token that fails verification.

## Model

| member | source | states |
|---|---|---|
| SqlTemplate.Sql | lib/db.ts:82-89 | Requires one more fragment than values. The text is the fragments interleaved with `$1..$n`, which is exactly `strings[0]` without values. The values are passed on unchanged and in order. The loop invariant ties the accumulated text to the reference interleaving. |
| SqlTemplate.Placeholders | lib/db.ts:85-86 | The i-th placeholder is `$` followed by i+1 in decimal, one per value. |
| SqlTemplate.AccumulatedIsInterleave | lib/db.ts:84-87 | The text after k loop steps is the interleaving of the first k+1 fragments with `$1..$k`. |
| SqlTemplate.FullTemplate | lib/db.ts:84-89 | After the last turn of the loop the text is the interleaving of all fragments with `$1..$n`; without values it is the single fragment. |
| SqlTemplate.PlaceholderCount | lib/db.ts:84-87 | When the fragments hold no `$`, the query holds exactly one `$` per value: no value text enters the query. |
| SqlTemplate.Raw | lib/db.ts:91 | `sql.raw` passes the text unchanged, with no parameters. |
| Common.DecimalRoundTrip | lib/db.ts:86 | Parsing the decimal rendering of n gives back n. |
| Common.DecimalInjective | app/api/orders/route.ts:65 | Different numbers render as different decimal texts. |
| Middleware.AnyPrefix | middleware.ts:7 | `some(startsWith)` holds iff one of the prefixes starts the path. |
| Middleware.IsProtected | middleware.ts:6-7 | A path is protected iff it starts with "/dashboard", "/admin" or "/orders". |
| Middleware.Gate | middleware.ts:5-21 | The outcome is `next` or a redirect to /login. It is `next` iff the path is unprotected, or the token cookie is present, non-empty and verifies without throwing. |
| Middleware.GateDependsOnVerdictOnly | middleware.ts:14-20 | Two verifiers that agree on whether the cookie's token throws give the same decision. |
| Middleware.PrefixExamples | middleware.ts:6-7 | "/administrator", "/orders/42" and "/dashboard" are protected. |
| Middleware.UnprotectedExamples | middleware.ts:6-7 | "/login", "/" and "/Admin" are not protected. |
| Token.BearerToken | app/api/orders/route.ts:9-14 | A token exists iff the header is present and starts with "Bearer ". The header is then the prefix followed by the token. |
| Token.BearerRoundTrip | app/api/orders/route.ts:14 | The header "Bearer " + t carries exactly t. |
| Token.BearerIsCaseSensitive | app/api/profile/route.ts:10 | "bearer " + t carries no token. Neither does "Bearer" + t, unless t starts with a space. |
| Token.Authenticate | app/api/orders/route.ts:9-19 | The gate gives one of: no token; a throwing verification; a falsy decode result; or the decoded claims. Each case holds exactly when its condition does. |
| Token.Refusal | app/api/orders/route.ts:9-19 | A request stopped at the token check gets 401 "No token provided", 401 "Invalid token", or 500 "Internal server error" when verification throws. |
| Token.VerifiesCarriedToken | app/api/orders/route.ts:14-15 | For the header "Bearer " + t, verification is applied to t itself. |
| Common.WithoutPassword | app/api/profile/route.ts:29 | The projection keeps the id and every field except `password`, with its stored value. |
| Common.FindFirst | app/api/login/route.ts:16 | The result is the first document whose field holds the value, or none when no document does. |
| Common.FindById | app/api/dashboard/route.ts:23 | The result is the first document with that id, or none when there is none. |
| Common.IncludesIff | app/orders/page.tsx:92-94 | The recursive `includes` holds iff the needle occurs at some index. |
| Common.TrimEmptyIff | app/admin/page.tsx:81 | `trim()` gives "" iff every character is JavaScript whitespace. |
| Common.TrimPadding | app/api/register/route.ts:39 | Whitespace added on either side of a string is removed by `trim()`. |
| Common.Trim | app/api/register/route.ts:39 | `trim()` shortens or keeps the string; the result neither starts nor ends with whitespace. |
| Common.TrimIsSlice | app/api/register/route.ts:39 | `trim()` only cuts at the ends: its result is the contiguous slice of the input that starts after the leading whitespace. |
| Common.ToLower | app/orders/page.tsx:92-96 | `toLowerCase()` keeps the length and maps each character through the ASCII lower-case mapping. |
| Common.LowerIgnoresCase | app/orders/page.tsx:96 | Lower-casing forgets the case the text was written in. |
| RegisterPage.MatchesIff | app/register/page.tsx:87-90 | A regex match on one character class holds iff some character of the password is in the class. |
| RegisterPage.Strength | app/register/page.tsx:85-92 | The score is at most 4, and the empty password scores 0. |
| RegisterPage.PasswordStrength | app/register/page.tsx:85-92 | The step-by-step counter equals the score: one point each for length at least 8, an upper-case letter, a digit and a character outside [A-Za-z0-9]. |
| RegisterPage.StrengthMonotone | app/register/page.tsx:86-91 | Appending characters never lowers the score. |
| RegisterPage.LowerCaseExample | app/register/page.tsx:86-91 | Example: "password" scores 1. |
| RegisterPage.StrengthExamples | app/register/page.tsx:86-91 | Example: "Passw0rd!" scores 4. |
| RegisterPage.ShortStrengthExamples | app/register/page.tsx:86-91 | Example: "A", "1" and "#" score 1 each, and "abc" scores 0. |
| RegisterPage.StrengthLabel | app/register/page.tsx:318 | The caption is one of "Weak", "Good" and "Strong". |
| RegisterPage.Bar | app/register/page.tsx:302-313 | Bar i is gray iff i is not below the score. A filled bar has the colour of the caption shown under the meter. |
| RegisterPage.MeterAgreesWithLabel | app/register/page.tsx:302-318 | For every password, exactly bars 0..strength-1 are filled, all in the caption's colour. The caption is Weak for a score of at most 2, Good for 3 and Strong for 4. |
| RegisterPage.WithInput | app/register/page.tsx:77-83 | The named field takes the new value. For the checkbox that is its checked state, for the other inputs their text. Every other field is unchanged. |
| RegisterPage.RegisterState.HandleInputChange | app/register/page.tsx:77-83 | The form state becomes `WithInput` of the old state: only the named field changes. |
| RegisterPage.SubmitDisabled | app/register/page.tsx:393 | The button is enabled iff not loading, the password equals its confirmation and the terms are accepted. |
| RegisterPage.RegisterState.IsSubmitDisabled | app/register/page.tsx:393 | The same rule, read from the component's state. |
| RegisterPage.WeakPasswordCanBeSubmitted | app/register/page.tsx:393 | A confirmed password of strength 0 still enables the button. |
| RegisterPage.RequestFor | app/register/page.tsx:53-56 | The posted name is the first name, one space and the last name. The email and password are sent as typed. |
| RegisterPage.NameRoundTrip | app/register/page.tsx:54 | Splitting the posted name at its first space gives back both parts, when the first name has no space. |
| RegisterPage.BodySent | app/register/page.tsx:53-56 | The body the server parses holds the three request properties. |
| RegisterPage.ShortPasswordRefusedByServer | app/register/page.tsx:393 | An enabled form whose password has fewer than 8 characters is refused by /api/register with 400 and nothing stored. |
| ApiRegister.NormalizeIgnoresCaseAndPadding | app/api/register/route.ts:39 | Emails that differ only in ASCII case or surrounding whitespace normalise alike. |
| ApiRegister.NormalizedTrimmed | app/api/register/route.ts:39 | The normalised email is no longer than the input and neither starts nor ends with whitespace. |
| ApiRegister.NormalizedLower | app/api/register/route.ts:39 | The normalised email has no upper-case ASCII letter. |
| ApiRegister.RowsWithEmail | app/api/register/route.ts:38-40 | The lookup finds rows iff some row has the email. |
| ApiRegister.SelectByEmail | app/api/register/route.ts:38-40 | The result's row count is the number of rows found. |
| ApiRegister.NewRowShape | app/api/register/route.ts:50-53 | The inserted row holds the trimmed name, an email with no surrounding whitespace and no upper-case letter, and the hash of the password. |
| ApiRegister.CountProperty | app/api/register/route.ts:42 | Reading `length` off the query result gives nothing: only `rowCount` and `rows.length` exist, and on a consistent result both give the number of rows found. |
| ApiRegister.AsWrittenNeverFindsDuplicate | app/api/register/route.ts:42 | Read as written, the duplicate condition is false for every result. |
| ApiRegister.Register | app/api/register/route.ts:6-68 | A body that does not parse gives 500. Then the checks come in order: missing fields give 400 "All fields are required", a password under 8 characters 400 "Password must be at least 8 characters", a failed probe 500 "Database connection failed", a taken email 409 "User already exists". Only a 201 writes, and it inserts exactly one row: the trimmed name, the normalised email and the hash. It gives 201 iff every check passes, and, with the corrected duplicate check, 409 iff the normalised email is taken. As written, 409 never occurs. |
| ApiRegister.SecondRegistrationConflicts | app/api/register/route.ts:39-53 | A second registration whose email normalises like the first gets 409 and leaves the table as it was. |
| ApiRegister.AsWrittenAdmitsDuplicate | app/api/register/route.ts:42 | As written, an email already in the table is inserted again with 201. The corrected check gives 409. |
| ApiRegister.AsWrittenRegistersTwice | app/api/register/route.ts:38-54 | From an empty table, as written, one request sent twice stores the same address twice. As intended, the second attempt gets 409. |
| ApiRegister.UsersTable.Post | app/api/register/route.ts:6-68 | The imperative handler's response and new table are those of `Register` with the corrected duplicate check. Nothing is written unless the response is 201. |
| ApiLogin.TokenClaims | app/api/login/route.ts:36-41 | The payload holds exactly the id plus whichever of name, email and created_at the user has, with their stored values. |
| ApiLogin.Login | app/api/login/route.ts:5-56 | The status is 200, 400, 401 or 500. A body that does not parse gives 500, and missing fields 400 before any lookup. With the store down the answer is 500. An unknown email gives 401 "Invalid credentials", and so does a rejected password; a comparison that throws gives 500. A session is appended exactly when the password is accepted. The answer is then 200 with the signed claims and the user without the password, or 500 with the session kept when signing throws. |
| ApiLogin.FailuresIndistinguishable | app/api/login/route.ts:18-26 | An unknown email and a wrong password give the identical response and leave the sessions unchanged. |
| ApiLogin.ReplyOmitsPassword | app/api/login/route.ts:44-50 | A successful reply has no `password`, and has every other stored field of the user. |
| ApiLogin.LoginStore.Post | app/api/login/route.ts:5-56 | The imperative handler equals `Login`: it inserts the session before signing the token, and changes only the sessions. |
| AuthRegister.Claims | app/api/auth/register/route.ts:24 | The payload is exactly the new user's id and email. |
| AuthRegister.Register | app/api/auth/register/route.ts:6-31 | A parse failure gives 500 with its message. Missing fields give 400, a failed connection 500 with its message, and an email in use (compared exactly) 400 "Email already in use"; a 400 with both fields present happens only then. It gives 200 iff all checks pass. Only then is one user with the hash appended and the cookie set to the signed id and email. |
| AuthRegister.EmailIsExact | app/api/auth/register/route.ts:16-19 | There is no normalisation: "ADA@x.io" registers beside "ada@x.io", and "ada@x.io" is refused. |
| AuthRegister.SuccessExposesOnlyEmail | app/api/auth/register/route.ts:21-27 | On success the reply names only the email. The cookie is the signature of the id and email. The stored password is the hash. |
| AuthRegister.AuthStore.Post | app/api/auth/register/route.ts:6-31 | The imperative handler's response, users and cookie are those of `Register`. |
| AuthLogin.FindUser | app/api/auth/login/route.ts:12 | The result is the first user with exactly that email, or none. A missing email finds nobody. |
| AuthLogin.Login | app/api/auth/login/route.ts:6-29 | The status is 200, 400 or 500. A parse failure or a failed connection gives 500 with its message. An unknown user gives 400 "Invalid credentials", and so does a mismatch; a comparison that throws gives 500 with its message. It gives 200 iff the user is found and the comparison matches. Only then is the cookie set to the signed id and email. |
| AuthLogin.MissingPasswordReachesCompare | app/api/auth/login/route.ts:8-20 | With no presence check, a request without a password reaches the comparison. A comparison that throws gives 500, and a mismatch gives 400. |
| AuthLogin.RegisterThenLogin | app/api/auth/login/route.ts:12-23 | A user registered through /api/auth/register logs in with the same credentials and gets the same cookie. |
| AuthLogin.CookieSession.Post | app/api/auth/login/route.ts:6-29 | The imperative handler's response and cookie are those of `Login`. |
| AuthMe.Me | app/api/auth/me/route.ts:5-17 | The status is always 200. The user is null iff the cookie is missing or empty, verification throws, or the result is falsy. Otherwise the user is the id and email of the payload. |
| AuthMe.RegisterThenMe | app/api/auth/me/route.ts:7-13 | The cookie set by a registration makes /api/auth/me name the new user's id and email. |
| ApiOrders.OwnedBy | app/api/orders/route.ts:24 | Every kept order has the user's id. Each such order is kept as often as it is stored, and no other order is kept. |
| ApiOrders.Insert | app/api/orders/route.ts:24 | Inserting adds exactly that one order, and the result starts with the new order or with the old first order. |
| ApiOrders.InsertNewestFirst | app/api/orders/route.ts:24 | Inserting into a newest-first list keeps it newest first. |
| ApiOrders.SortNewestFirst | app/api/orders/route.ts:24 | The result is newest first and a permutation of the input. |
| ApiOrders.Count | app/api/orders/route.ts:29-30 | The count of a status is at most the number of orders. It is 0 iff no order has that status, and it equals the number of orders iff every order has it. |
| ApiOrders.CountsDisjoint | app/api/orders/route.ts:27-30 | Two different statuses together count at most the number of orders. |
| ApiOrders.CountIsMultiset | app/api/orders/route.ts:24-30 | Counts depend only on the multiset of orders, so sorting does not change them. |
| ApiOrders.StatsOf | app/api/orders/route.ts:27-30 | `total` is the number of orders and `active`/`pending` are the status counts, with active + pending ≤ total. |
| ApiOrders.List | app/api/orders/route.ts:5-39 | Without a Bearer token the answer is 401 "No token provided", and a falsy decode gives 401 "Invalid token". A throwing verifier, or claims with the database down, gets 500 "Internal server error", and every 500 says that. It answers 200 iff the token verifies to claims and the database is up. Then it lists newest first exactly the orders whose userId equals the token's (`null` when absent), with their counts. |
| ApiOrders.ListCountsOwnOrders | app/api/orders/route.ts:24-30 | The listing's counts are those of all of the caller's stored orders. |
| ApiOrders.OrderId | app/api/orders/route.ts:65 | The id is "ORD-" followed by the clock reading in decimal. |
| ApiOrders.OrderIdInjective | app/api/orders/route.ts:65 | Different clock readings give different order ids. |
| ApiOrders.NewOrder | app/api/orders/route.ts:63-74 | The new order is pending and has the token's userId. Its createdAt is the clock reading, and nextBilling is the other reading plus 2,592,000,000 ms. The service, type, billing cycle and location come from the body. |
| ApiOrders.Create | app/api/orders/route.ts:41-87 | Without a Bearer token the answer is 401, and a falsy decode gives 401 "Invalid token". A throwing verifier, or claims with an unparsed body or the database down, gets 500 "Internal server error". It gives 200 iff authorised, the body parsed and the database is up. Only then is exactly that one order appended and its id returned. |
| ApiOrders.CreatedOrderIsListed | app/api/orders/route.ts:24-76 | An order created with a token appears in that token's next listing. |
| ApiOrders.OrdersCollection.Post | app/api/orders/route.ts:41-87 | The imperative handler's response and collection are those of `Create`. |
| ApiProfile.FindByUserId | app/api/profile/route.ts:22 | The result is the first user whose id is the claim's string value, or none. A missing or non-string claim finds nobody. |
| ApiProfile.Show | app/api/profile/route.ts:5-35 | Without a Bearer token the answer is 401, and a falsy decode gives 401 "Invalid token". A throwing verifier, or claims with the database down, gets 500 "Internal server error". It gives 404 iff authorised but no user matches, and 200 iff one does. The body is then that user without the password. |
| ApiProfile.ProfileSet | app/api/profile/route.ts:62-70 | The update writes exactly the six profile fields, as the body has them (`null` if absent), and updatedAt. |
| ApiProfile.Apply | app/api/profile/route.ts:59-72 | The written fields take the new values. Every other field keeps its value. |
| ApiProfile.Update | app/api/profile/route.ts:37-86 | Without a Bearer token the answer is 401, and a falsy decode gives 401 "Invalid token". A throwing verifier, or claims with an unparsed body or the database down, gets 500 "Internal server error". It gives 404 iff authorised with a body but no matching user, and 200 iff the user matches. Any non-200 answer changes nothing. On 200 only the matched document changes, by applying the update. |
| ApiProfile.UpdateTouchesOnlyProfile | app/api/profile/route.ts:59-72 | After a successful update, the other users, the id, the password and every unlisted field are unchanged, and the listed fields hold the body's values. |
| ApiProfile.UpdateThenShow | app/api/profile/route.ts:29-72 | After a successful update, GET shows the new values and no password. |
| ApiProfile.FirstMatch | app/api/profile/route.ts:22-60 | The first document with the wanted id is the one both lookups address. |
| ApiProfile.ProfileStore.Put | app/api/profile/route.ts:37-86 | The imperative handler's response and users are those of `Update`. |
| ApiDashboard.Projection | app/api/dashboard/route.ts:31-36 | The reply's user has exactly the id plus whichever of name, email and created_at are stored, and never the password. |
| ApiDashboard.Dashboard | app/api/dashboard/route.ts:5-42 | Without a Bearer token the answer is 401, and a falsy payload 401 "Invalid token". A throwing verification, a down store or a claim that does not convert gives 500 "Internal server error". An authorised request with the store up and no `userId` claim, or no user with that id, gives 404 "User not found". It gives 200 iff authorised, the store is up, the claim converts to an id and a user has it. |
| ApiDashboard.OverviewOmitsPassword | app/api/dashboard/route.ts:29-37 | A successful answer carries no password and only the stored user's own values. |
| OrdersPage.GetStatusColor | app/orders/page.tsx:71-84 | The class is the gray default iff the status is none of active, pending, suspended and cancelled. |
| OrdersPage.ColourTable | app/orders/page.tsx:73-80 | Each of the four statuses gets its own class string. |
| OrdersPage.StatusColoursDistinct | app/orders/page.tsx:71-84 | The four statuses get four different classes. |
| OrdersPage.Capitalize | app/orders/page.tsx:317 | The caption has the same length, its first character upper-cased and the rest unchanged. |
| OrdersPage.CapitalizeIdempotent | app/orders/page.tsx:317 | Capitalising twice is capitalising once. A lower-case status is recovered by lower-casing its caption. |
| OrdersPage.Filtered | app/orders/page.tsx:91-99 | The result is a subsequence of the orders, in their order. Every kept order passes the search and both filters, and each passing order is kept as often as it appears. |
| OrdersPage.NoFilterKeepsAll | app/orders/page.tsx:92-97 | An empty search with "all" and "all" keeps every order. |
| OrdersPage.TypeFilterIgnoresCase | app/orders/page.tsx:96 | A type filter and its upper-case form keep the same orders. |
| OrdersPage.SearchIff | app/orders/page.tsx:92-94 | The search keeps an order iff the lower-cased term occurs in the lower-cased service or id. |
| OrdersPage.MatchesSearch | app/orders/page.tsx:92-94 | The search rule; its meaning is stated by `SearchIff`. |
| OrdersPage.MatchesStatus | app/orders/page.tsx:95 | The status filter: "all", or the order's status exactly. |
| OrdersPage.MatchesType | app/orders/page.tsx:96 | The type filter: "all", or the type equal ignoring ASCII case; see `TypeFilterIgnoresCase`. |
| OrdersPage.Keep | app/orders/page.tsx:92-98 | An order is shown iff it passes the search and both filters; `Filtered` keeps exactly these. |
| OrdersPage.CountStatus | app/orders/page.tsx:103-104 | The count of a status is at most the number of orders. It is 0 iff no order has that status, and it equals the number of orders iff every order has it. |
| OrdersPage.CountsDisjoint | app/orders/page.tsx:101-104 | Two different statuses together count at most the number of orders. |
| OrdersPage.StatsOf | app/orders/page.tsx:101-104 | `total` is the number of orders and `active`/`pending` count their statuses, with active + pending ≤ total. |
| OrdersPage.PageCounts | app/orders/page.tsx:13-104 | The page's own list has 5 orders, 2 active and 1 pending. |
| AdminPage.WithStatus | app/admin/page.tsx:439-441 | The length is kept. The orders with the id get the new status and the others keep theirs. Every other field of every order is unchanged. |
| AdminPage.WithStatusAbsent | app/admin/page.tsx:440 | An id no order has leaves the list as it was. |
| AdminPage.WithStatusIdempotent | app/admin/page.tsx:440 | The same update twice equals the update once. |
| AdminPage.WithStatusKeepsRows | app/admin/page.tsx:440 | Ids, amounts and row order are kept, and rows with other ids are unchanged. |
| AdminPage.ShouldSend | app/admin/page.tsx:81 | A message is sent iff the text is not all whitespace. |
| AdminPage.AdminMessage | app/admin/page.tsx:82-88 | The new message is from "Admin", marked as the admin's, carries the untrimmed text, the clock's decimal id and the timestamp. |
| AdminPage.AdminDashboard.constructor | app/admin/page.tsx:46-63 | The initial tab is the dashboard and the sidebar is closed. The orders and the chat are the initial ones, and the input is empty. |
| AdminPage.AdminDashboard.SetNewMessage | app/admin/page.tsx:599 | The input's change handler sets the typed message to the new text. |
| AdminPage.AdminDashboard.UpdateOrderStatus | app/admin/page.tsx:439-441 | The orders become `WithStatus` of the old orders. |
| AdminPage.AdminDashboard.HandleSendMessage | app/admin/page.tsx:80-92 | Empty or all-whitespace text changes neither the chat nor the input. Otherwise exactly that one message is appended after the old ones, and the input becomes "". |
| AdminPage.AdminDashboard.HandleTabChange | app/admin/page.tsx:94-97 | The tab becomes the chosen one and the mobile sidebar is closed. |
| ClientAuth.KeysDistinct | lib/client-auth.ts:11-24 | The token key and the user key differ. |
| ClientAuth.TokenIn | lib/client-auth.ts:14-17 | There is a token iff there is a window and the key is stored. It is then the stored item. |
| ClientAuth.UserIn | lib/client-auth.ts:27-31 | There is a user iff there is a window and a user record is stored. It is then that record. |
| ClientAuth.SetThenGetToken | lib/client-auth.ts:10-45 | After storing t, reading gives t. The session counts as authenticated iff t is not empty. |
| ClientAuth.KeysIndependent | lib/client-auth.ts:11-34 | Setting or removing one key leaves what the other reads unchanged. |
| ClientAuth.SetThenGetUser | lib/client-auth.ts:23-31 | The user last stored is the user read back. |
| ClientAuth.Authenticated | lib/client-auth.ts:43-45 | The session is authenticated iff there is a window and the token key holds an item other than the empty string. |
| ClientAuth.ClientSession.SetAuthToken | lib/client-auth.ts:10-12 | With a window, the token key gets the token. Without one, the call throws and nothing changes. |
| ClientAuth.ClientSession.GetAuthToken | lib/client-auth.ts:14-17 | Without a window the result is null. Otherwise it is the stored token. |
| ClientAuth.ClientSession.RemoveAuthToken | lib/client-auth.ts:19-21 | The token key goes (or the call throws without a window), and afterwards the session is not authenticated. |
| ClientAuth.ClientSession.SetUser | lib/client-auth.ts:23-25 | With a window, the user key gets the record. Without one, the call throws and nothing changes. |
| ClientAuth.ClientSession.GetUser | lib/client-auth.ts:27-31 | Without a window the result is null. Otherwise it is the stored record. |
| ClientAuth.ClientSession.RemoveUser | lib/client-auth.ts:33-35 | The user key goes (or the call throws without a window), and afterwards no user is read. |
| ClientAuth.ClientSession.Logout | lib/client-auth.ts:37-41 | With a window, both keys go and the location becomes /login. Without one, the first removal throws and nothing changes. Afterwards there is neither a token nor a user. |
| ClientAuth.ClientSession.IsAuthenticated | lib/client-auth.ts:43-45 | `isAuthenticated()` holds iff `getAuthToken()` returns a truthy item. |

## Left out

- Rendering, styling, animation, particles and the presentational pages (home, login, profile and dashboard pages): these are presentation only.
- The connection pool, TLS certificate, start-up health check and shutdown hooks of lib/db.ts: these are I/O and process control. The `getClient` and `end` members of `sql` are left out too, as they only hand through to the pool.
- bcrypt, jsonwebtoken and the cookie API of lib/auth.ts: they are parameters. Hashing is a function. Comparison is a verdict that may throw, except in /api/register, which does not compare. Signing is a function from claims to text, which may throw only in /api/login. Verification is a `Verification`. The cookie jar is one optional value.
- Token expiry and the cookie attributes (httpOnly, sameSite, maxAge): they do not affect any decision the handlers make.
- Prices and `totalSpent` (in /api/orders and the orders page): they are floating-point arithmetic. The page's price is kept as its display text.
- Clocks (`Date.now()`, `new Date()`, `toLocaleTimeString`): they are parameters. Locale formatting of the chat timestamp is not modelled.
- The Next.js `matcher` configuration, `NextResponse`, `fetch` and the redirects after a successful registration or login on the pages: these are framework and navigation.
- The console logging in every handler: it has no effect on responses.
- Unicode case mapping: `toLowerCase`/`toUpperCase` are modelled on ASCII letters only. `trim` uses the full JavaScript whitespace set.
- The HTML `required` attributes of the registration form: they are browser validation outside the component's code.
- ApiOrders.SortNewestFirst: orders with equal `createdAt` keep their collection order here. The store promises no order among them, so the proved contract is the descending order and the permutation only.
- AuthLogin.FindUser: a request without an email is taken to find no user. The document store's treatment of an `undefined` filter value is a driver setting outside this code.
- AuthMe.Me: a falsy decoded value is taken to be `null`, whose property read throws. A falsy non-null value such as `0` would answer an empty user object instead.
- ApiDashboard.Dashboard: `new ObjectId(undefined)` generates a fresh id, which is taken to match no stored user. The conversion of other values is a parameter.
- ApiProfile.FindByUserId: ids are compared as strings. The handlers and the stores they import disagree on id types (ObjectId against string), and that disagreement is not modelled.
- ClientAuth.UserIn: an item under "user" that this module did not write (plain text rather than a user's JSON) is read as no user. `JSON.parse` of arbitrary text is not modelled.
- RegisterPage.Strength: JavaScript's `.length` counts UTF-16 code units, while the model counts characters. A password of four characters outside the Basic Multilingual Plane (four emoji, say) has length 8 in the source and 4 here, so the length point (app/register/page.tsx:87) can differ.
- ApiRegister.Register: for the same reason, the `< 8` rule (app/api/register/route.ts:19) counts characters, not UTF-16 code units.
- Request bodies: every body property is modelled as an optional string. The source accepts any JSON value and applies truthiness, `.length` or `.trim()` to it. A truthy non-string (a number, say) passes the presence checks, and `.trim()` or `.toLowerCase()` on it then throws and answers 500. The model does not capture that path.
- ApiRegister.Register: `hashPassword` and the INSERT are taken to succeed. A failure there throws and answers 500 "Internal server error" with no row stored, for example a unique-constraint violation, if the schema has one.
- AuthRegister.Register, AuthLogin.Login: `createToken` is taken not to throw. It runs after `User.create` in registration, so a throwing signer would leave the user stored behind a 500. In /api/login that path is modelled: a session inserted before signing stays after a throwing signer.
- Store calls after a successful connection are taken to succeed, so the 500 a throwing call answers through the handler's `catch` is not modelled. This covers `User.findOne` and `User.create` in AuthRegister.Register (app/api/auth/register/route.ts:16-22, caught at 28-29), `User.findOne` in AuthLogin.Login (app/api/auth/login/route.ts:12), `find` in ApiOrders.List and `insertOne` in ApiOrders.Create (app/api/orders/route.ts:24-76), `findOne` in ApiProfile.Show and `updateOne` in ApiProfile.Update (app/api/profile/route.ts:22-59), and `findOne` in ApiDashboard.Dashboard (app/api/dashboard/route.ts:23). It also covers the duplicate SELECT in ApiRegister.Register (app/api/register/route.ts:38-40). ApiLogin.Login has one flag `dbUp` for `getCollection("users")` and `getCollection("sessions")` (app/api/login/route.ts:15-33), so the case where the users lookup succeeds and the session insert then fails, which answers 500, is not modelled.
- Request bodies in /api/orders and /api/profile: `None` stands for a body that fails to parse or is `null`. Any other JSON value destructures without throwing. A number, string, boolean or array has none of the named properties and is `Some(map[])`.
- Mongo `undefined` handling: a body or token property that is absent is stored or matched as `null`, as the driver does by default.

## Findings

| source | as written | input that shows it | evidently intended | confidence | as-written member | corrected member |
|---|---|---|---|---|---|---|
| app/api/register/route.ts:42 | `existingUser.length > 0`, where `existingUser` is the result object of `pool.query` (lib/db.ts:88). That object has `rows` and `rowCount` but no `length`, so the condition is `undefined > 0`, which is false, and the duplicate check never fires. | The same valid registration request sent twice against an empty table: the second also gets 201 and the table holds the address twice. | Refuse a taken email with 409, comparing the number of rows found (`existingUser.rows.length` or `rowCount`). | not executed. A UNIQUE constraint on `users.email`, if the schema has one, would make the second insert throw and answer 500 instead. | ApiRegister.AsWrittenRegistersTwice | ApiRegister.SecondRegistrationConflicts |
