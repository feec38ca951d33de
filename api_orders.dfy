/** /api/orders (app/api/orders/route.ts). Both handlers start with the Bearer
    check and token verification. GET lists the caller's orders, newest
    first, with counts by status; POST stores one new order in the pending
    state. The collection is a sequence of order documents; the three clock
    readings POST makes are parameters, and whether the database can be
    reached is a flag; the `find` and `insertOne` calls after a successful
    connection are taken to succeed. */
module ApiOrders {
  import opened Common
  import opened Token

  /** A stored order. Properties the request or the token lacks are stored as
      `Null`; `createdAt` and `nextBilling` are dates in milliseconds. */
  datatype OrderDoc = OrderDoc(
    userId: Value, id: string, service: Value, planType: Value, status: string,
    billingCycle: Value, serverLocation: Value, createdAt: int, nextBilling: int)

  // ---------------------------------------------------------------------
  // Selection and order of the listing
  // ---------------------------------------------------------------------

  /** `find({ userId })`: the orders of one user, in collection order. */
  function OwnedBy(orders: seq<OrderDoc>, uid: Value): (r: seq<OrderDoc>)
    ensures forall k :: 0 <= k < |r| ==> r[k].userId == uid
    ensures forall o :: multiset(r)[o] == if o.userId == uid then multiset(orders)[o] else 0
    decreases |orders|
  {
    if orders == [] then []
    else
      var rest := OwnedBy(orders[1..], uid);
      assert orders == [orders[0]] + orders[1..];
      if orders[0].userId == uid then [orders[0]] + rest else rest
  }

  predicate NewestFirst(s: seq<OrderDoc>)
  {
    forall i, j :: 0 <= i < j < |s| ==> s[i].createdAt >= s[j].createdAt
  }

  /** Puts one order in front of the first order that is not newer than it. */
  function Insert(x: OrderDoc, s: seq<OrderDoc>): (r: seq<OrderDoc>)
    ensures multiset(r) == multiset(s) + multiset{x}
    ensures r != [] && (r[0] == x || (s != [] && r[0] == s[0]))
    decreases |s|
  {
    if s == [] then [x]
    else if x.createdAt >= s[0].createdAt then [x] + s
    else
      assert s == [s[0]] + s[1..];
      [s[0]] + Insert(x, s[1..])
  }

  /** Inserting into a newest-first list keeps it newest first. */
  lemma {:induction false} InsertNewestFirst(x: OrderDoc, s: seq<OrderDoc>)
    requires NewestFirst(s)
    ensures NewestFirst(Insert(x, s))
    decreases |s|
  {
    if s != [] && x.createdAt < s[0].createdAt {
      var rest := Insert(x, s[1..]);
      InsertNewestFirst(x, s[1..]);
      var r := Insert(x, s);
      assert r == [s[0]] + rest;
      assert rest[0].createdAt <= s[0].createdAt;
      forall i, j | 0 <= i < j < |r| ensures r[i].createdAt >= r[j].createdAt {
        if i == 0 { assert rest[0].createdAt >= rest[j - 1].createdAt; }
      }
    }
  }

  /** `sort({ createdAt: -1 })`: the same orders, newest first. Orders with
      equal `createdAt` keep no particular order in the store; here they keep
      their collection order. */
  function SortNewestFirst(s: seq<OrderDoc>): (r: seq<OrderDoc>)
    ensures NewestFirst(r)
    ensures multiset(r) == multiset(s)
    decreases |s|
  {
    if s == [] then []
    else
      assert s == [s[0]] + s[1..];
      var sorted := SortNewestFirst(s[1..]);
      InsertNewestFirst(s[0], sorted);
      Insert(s[0], sorted)
  }

  // ---------------------------------------------------------------------
  // The counts
  // ---------------------------------------------------------------------

  /** `orders.filter((o) => o.status === status).length`. */
  function Count(s: seq<OrderDoc>, status: string): (n: nat)
    ensures n <= |s|
    ensures n == 0 <==> forall k :: 0 <= k < |s| ==> s[k].status != status
    ensures n == |s| <==> forall k :: 0 <= k < |s| ==> s[k].status == status
    decreases |s|
  {
    if s == [] then 0 else (if s[0].status == status then 1 else 0) + Count(s[1..], status)
  }

  /** No order is counted under two different statuses. */
  lemma {:induction false} CountsDisjoint(s: seq<OrderDoc>, a: string, b: string)
    requires a != b
    ensures Count(s, a) + Count(s, b) <= |s|
    decreases |s|
  {
    if s != [] {
      CountsDisjoint(s[1..], a, b);
    }
  }

  /** A count only depends on which orders there are, not on their order. */
  lemma {:induction false} CountIsMultiset(s: seq<OrderDoc>, t: seq<OrderDoc>, status: string)
    requires multiset(s) == multiset(t)
    ensures Count(s, status) == Count(t, status)
    decreases |s|
  {
    if s == [] {
      assert |t| == |multiset(t)| == 0;
    } else {
      var x := s[0];
      assert x in multiset(t);
      var k :| 0 <= k < |t| && t[k] == x;
      var t' := t[..k] + t[k + 1..];
      RemoveOne(s, t, k);
      CountIsMultiset(s[1..], t', status);
      CountRemove(t, k, status);
    }
  }

  /** Taking the first element off `s` and element `k` off `t`, both equal,
      leaves equal multisets. */
  lemma RemoveOne(s: seq<OrderDoc>, t: seq<OrderDoc>, k: nat)
    requires multiset(s) == multiset(t) && s != [] && k < |t| && t[k] == s[0]
    ensures multiset(s[1..]) == multiset(t[..k] + t[k + 1..])
  {
    assert s == [s[0]] + s[1..];
    assert t == t[..k] + [t[k]] + t[k + 1..];
    assert multiset(s[1..]) == multiset(s) - multiset{s[0]};
    assert multiset(t[..k] + t[k + 1..]) == multiset(t) - multiset{t[k]};
  }

  /** Removing element `k` lowers the count by what that element added. */
  lemma CountRemove(t: seq<OrderDoc>, k: nat, status: string)
    requires k < |t|
    ensures Count(t, status) == (if t[k].status == status then 1 else 0) + Count(t[..k] + t[k + 1..], status)
  {
    assert t == t[..k] + ([t[k]] + t[k + 1..]);
    CountSplit(t[..k], [t[k]] + t[k + 1..], status);
    CountSplit(t[..k], t[k + 1..], status);
    assert ([t[k]] + t[k + 1..])[1..] == t[k + 1..];
  }

  lemma {:induction false} CountSplit(a: seq<OrderDoc>, b: seq<OrderDoc>, status: string)
    ensures Count(a + b, status) == Count(a, status) + Count(b, status)
    decreases |a|
  {
    if a == [] {
      assert a + b == b;
    } else {
      assert (a + b)[0] == a[0];
      assert (a + b)[1..] == a[1..] + b;
      CountSplit(a[1..], b, status);
    }
  }

  /** The `stats` object, without `totalSpent`. */
  datatype Stats = Stats(total: nat, active: nat, pending: nat)

  function StatsOf(orders: seq<OrderDoc>): (st: Stats)
    ensures st.total == |orders|
    ensures st.active == Count(orders, "active") && st.pending == Count(orders, "pending")
    ensures st.active + st.pending <= st.total
  {
    CountsDisjoint(orders, "active", "pending");
    Stats(|orders|, Count(orders, "active"), Count(orders, "pending"))
  }

  // ---------------------------------------------------------------------
  // The handlers
  // ---------------------------------------------------------------------

  /** The JSON bodies: `{ error }`, the listing `{ orders, stats }`, or the
      creation reply `{ success: true, message, orderId }`. */
  datatype OrdersReply =
    | Failure(error: string)
    | Listing(orders: seq<OrderDoc>, stats: Stats)
    | Created(message: string, orderId: string)

  /** `GET`: `header` is the Authorization header, `verify` token
      verification, `dbUp` whether `connectToDatabase()` succeeds. */
  function List(orders: seq<OrderDoc>, header: Option<string>, verify: string -> Verification, dbUp: bool)
    : (r: Response<OrdersReply>)
    ensures r.status in {200, 401, 500}
    ensures BearerToken(header).None? ==> r == Response(401, Failure("No token provided"))
    ensures Authenticate(header, verify) == InvalidToken ==> r == Response(401, Failure("Invalid token"))
    ensures Authenticate(header, verify) == VerifyThrew ==> r == Response(500, Failure("Internal server error"))
    ensures Authenticate(header, verify).Authorized? && !dbUp ==> r == Response(500, Failure("Internal server error"))
    ensures r.status == 500 ==> r.body == Failure("Internal server error")
    ensures r.status == 200 <==> Authenticate(header, verify).Authorized? && dbUp
    ensures r.status == 200 ==>
      var uid := Stored(Field(Authenticate(header, verify).claims, "userId"));
      r.body.Listing? && NewestFirst(r.body.orders) &&
      (forall k :: 0 <= k < |r.body.orders| ==> r.body.orders[k].userId == uid) &&
      (forall o :: multiset(r.body.orders)[o] == if o.userId == uid then multiset(orders)[o] else 0) &&
      r.body.stats == StatsOf(r.body.orders)
  {
    match Authenticate(header, verify)
    case Authorized(claims) =>
      if !dbUp then Response(500, Failure("Internal server error"))
      else
        var mine := SortNewestFirst(OwnedBy(orders, Stored(Field(claims, "userId"))));
        Response(200, Listing(mine, StatsOf(mine)))
    case _ =>
      var f := Refusal(Authenticate(header, verify));
      Response(f.status, Failure(f.body))
  }

  /** The listing's counts are those of all the caller's orders in the
      collection: sorting changes neither the number nor the statuses. */
  lemma ListCountsOwnOrders(orders: seq<OrderDoc>, header: Option<string>, verify: string -> Verification, dbUp: bool)
    requires List(orders, header, verify, dbUp).status == 200
    ensures var uid := Stored(Field(Authenticate(header, verify).claims, "userId"));
      var st := List(orders, header, verify, dbUp).body.stats;
      var mine := OwnedBy(orders, uid);
      st.total == |mine| && st.active == Count(mine, "active") && st.pending == Count(mine, "pending")
  {
    var uid := Stored(Field(Authenticate(header, verify).claims, "userId"));
    var mine := OwnedBy(orders, uid);
    var sorted := SortNewestFirst(mine);
    assert |sorted| == |multiset(sorted)| == |multiset(mine)| == |mine|;
    CountIsMultiset(sorted, mine, "active");
    CountIsMultiset(sorted, mine, "pending");
  }

  /** Thirty days in milliseconds. */
  const BillingPeriod: int := 30 * 24 * 60 * 60 * 1000

  /** The id `ORD-${Date.now()}`. */
  function OrderId(now: nat): (id: string)
    ensures |id| > 4 && id[..4] == "ORD-" && id[4..] == DecimalText(now)
  {
    "ORD-" + DecimalText(now)
  }

  /** Two clock readings that differ give two different order ids. */
  lemma OrderIdInjective(a: nat, b: nat)
    requires OrderId(a) == OrderId(b)
    ensures a == b
  {
    assert OrderId(a)[4..] == DecimalText(a);
    assert OrderId(b)[4..] == DecimalText(b);
    DecimalInjective(a, b);
  }

  /** The order POST builds: `idClock`, `createdAt` and `billingClock` are the
      readings of `Date.now()` for the id, `new Date()` and `Date.now()` for the
      next billing date. */
  function NewOrder(claims: Claims, body: Record, idClock: nat, createdAt: int, billingClock: int): (o: OrderDoc)
    ensures o.status == "pending" && o.userId == Stored(Field(claims, "userId"))
    ensures o.id == OrderId(idClock) && o.createdAt == createdAt
    ensures o.nextBilling == billingClock + 2592000000
    ensures o.service == Stored(Field(body, "service")) && o.planType == Stored(Field(body, "type"))
    ensures o.billingCycle == Stored(Field(body, "billingCycle")) && o.serverLocation == Stored(Field(body, "serverLocation"))
  {
    OrderDoc(Stored(Field(claims, "userId")), OrderId(idClock), Stored(Field(body, "service")),
             Stored(Field(body, "type")), "pending", Stored(Field(body, "billingCycle")),
             Stored(Field(body, "serverLocation")), createdAt, billingClock + BillingPeriod)
  }

  datatype Outcome = Outcome(response: Response<OrdersReply>, orders: seq<OrderDoc>)

  /** `POST` as a function of the collection before the request. `body` is
      `None` when `request.json()` throws or yields `null`; a number, string,
      boolean or array body destructures to no fields and is `Some(map[])`. */
  function Create(orders: seq<OrderDoc>, header: Option<string>, verify: string -> Verification,
                  body: Option<Record>, dbUp: bool, idClock: nat, createdAt: int, billingClock: int): (o: Outcome)
    ensures o.response.status in {200, 401, 500}
    ensures o.response.status != 200 ==> o.orders == orders
    ensures BearerToken(header).None? ==> o.response == Response(401, Failure("No token provided"))
    ensures Authenticate(header, verify) == InvalidToken ==> o.response == Response(401, Failure("Invalid token"))
    ensures Authenticate(header, verify) == VerifyThrew ==> o.response == Response(500, Failure("Internal server error"))
    ensures Authenticate(header, verify).Authorized? && (body.None? || !dbUp) ==>
      o.response == Response(500, Failure("Internal server error"))
    ensures o.response.status == 500 ==> o.response.body == Failure("Internal server error")
    ensures o.response.status == 200 <==> Authenticate(header, verify).Authorized? && body.Some? && dbUp
    ensures o.response.status == 200 ==>
      var n := NewOrder(Authenticate(header, verify).claims, body.value, idClock, createdAt, billingClock);
      o.orders == orders + [n] && o.response.body == Created("Order created successfully", n.id)
  {
    match Authenticate(header, verify)
    case Authorized(claims) =>
      if body.None? || !dbUp then Outcome(Response(500, Failure("Internal server error")), orders)
      else
        var n := NewOrder(claims, body.value, idClock, createdAt, billingClock);
        Outcome(Response(200, Created("Order created successfully", n.id)), orders + [n])
    case _ =>
      var f := Refusal(Authenticate(header, verify));
      Outcome(Response(f.status, Failure(f.body)), orders)
  }

  /** An order created with a token that carries `userId` appears in the
      listing the same header gets afterwards. */
  lemma CreatedOrderIsListed(orders: seq<OrderDoc>, header: Option<string>, verify: string -> Verification,
                             body: Record, idClock: nat, createdAt: int, billingClock: int)
    requires Authenticate(header, verify).Authorized?
    ensures var o := Create(orders, header, verify, Some(body), true, idClock, createdAt, billingClock);
      var l := List(o.orders, header, verify, true);
      l.status == 200 && exists k :: 0 <= k < |l.body.orders| && l.body.orders[k].id == OrderId(idClock)
  {
    var claims := Authenticate(header, verify).claims;
    var n := NewOrder(claims, body, idClock, createdAt, billingClock);
    var after := orders + [n];
    var l := List(after, header, verify, true);
    assert after[|orders|] == n;
    assert multiset(after)[n] > 0;
    assert multiset(l.body.orders)[n] > 0;
    assert n in l.body.orders;
    var k :| 0 <= k < |l.body.orders| && l.body.orders[k] == n;
  }

  /** The orders collection and the POST handler that writes to it. */
  class OrdersCollection {
    var orders: seq<OrderDoc>

    constructor (initial: seq<OrderDoc>)
      ensures orders == initial
    {
      orders := initial;
    }

    /** `POST`: the checks, then `insertOne(newOrder)`. */
    method Post(header: Option<string>, verify: string -> Verification, body: Option<Record>, dbUp: bool,
                idClock: nat, createdAt: int, billingClock: int) returns (resp: Response<OrdersReply>)
      modifies this
      ensures var o := Create(old(orders), header, verify, body, dbUp, idClock, createdAt, billingClock);
        resp == o.response && orders == o.orders
    {
      var token := BearerToken(header);
      if token.None? {
        return Response(401, Failure("No token provided"));
      }
      var decoded := verify(token.value);
      if decoded.Rejected? {
        return Response(500, Failure("Internal server error"));
      }
      if decoded.decoded.None? {
        return Response(401, Failure("Invalid token"));
      }
      if body.None? || !dbUp {
        return Response(500, Failure("Internal server error"));
      }
      var newOrder := NewOrder(decoded.decoded.value, body.value, idClock, createdAt, billingClock);
      orders := orders + [newOrder];
      resp := Response(200, Created("Order created successfully", newOrder.id));
    }
  }
}
