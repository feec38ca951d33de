/** The orders page (app/orders/page.tsx): a fixed list of five orders, the
    badge colour and caption of a status, the search and filter rule of the
    table, and the counts shown above it. Everything here is a pure function
    of the list and of the three filter inputs. */
module OrdersPage {
  import opened Common

  /** An order as the page lists it. `planType` is the `type` property;
      `price` is kept as its display text. */
  datatype PageOrder = PageOrder(
    id: string, service: string, planType: string, status: string, price: string,
    billingCycle: string, createdDate: string, nextBilling: string, serverLocation: string)

  /** The page's constant `orders`. */
  const Orders: seq<PageOrder> := [
    PageOrder("ORD-001", "Professional RDP", "RDP", "active", "$19.99", "Monthly", "2024-01-15", "2024-02-15", "New York, US"),
    PageOrder("ORD-002", "Business VPS", "VPS", "active", "$14.99", "Monthly", "2024-01-10", "2024-02-10", "London, UK"),
    PageOrder("ORD-003", "Gaming RDP", "RDP", "suspended", "$29.99", "Monthly", "2024-01-05", "2024-02-05", "Frankfurt, DE"),
    PageOrder("ORD-004", "Enterprise VPS", "VPS", "pending", "$59.99", "Monthly", "2024-01-20", "2024-02-20", "Tokyo, JP"),
    PageOrder("ORD-005", "Basic RDP", "RDP", "cancelled", "$9.99", "Monthly", "2023-12-01", "-", "Sydney, AU")
  ]

  // ---------------------------------------------------------------------
  // Status badge
  // ---------------------------------------------------------------------

  const ActiveColour: string := "bg-green-100 text-green-800 border-green-200"
  const PendingColour: string := "bg-yellow-100 text-yellow-800 border-yellow-200"
  const SuspendedColour: string := "bg-orange-100 text-orange-800 border-orange-200"
  const CancelledColour: string := "bg-red-100 text-red-800 border-red-200"
  const DefaultColour: string := "bg-gray-100 text-gray-800 border-gray-200"

  /** `getStatusColor`: the badge classes of a status. */
  function GetStatusColor(status: string): (cls: string)
    ensures cls == DefaultColour <==> status !in {"active", "pending", "suspended", "cancelled"}
  {
    match status
    case "active" => ActiveColour
    case "pending" => PendingColour
    case "suspended" => SuspendedColour
    case "cancelled" => CancelledColour
    case _ => DefaultColour
  }

  /** The badge of each known status. */
  lemma ColourTable()
    ensures GetStatusColor("active") == ActiveColour
    ensures GetStatusColor("pending") == PendingColour
    ensures GetStatusColor("suspended") == SuspendedColour
    ensures GetStatusColor("cancelled") == CancelledColour
  {
    assert "pending" != "active" by { assert "pending"[0] != "active"[0]; }
    assert "suspended" != "active" && "suspended" != "pending" by {
      assert "suspended"[0] != "active"[0] && "suspended"[0] != "pending"[0];
    }
    assert "cancelled" != "active" && "cancelled" != "pending" && "cancelled" != "suspended" by {
      assert "cancelled"[0] != "active"[0] && "cancelled"[0] != "pending"[0] && "cancelled"[0] != "suspended"[0];
    }
  }

  /** The four known statuses get four different badges. */
  lemma StatusColoursDistinct(s: string, t: string)
    requires s == "active" || s == "pending" || s == "suspended" || s == "cancelled"
    requires t == "active" || t == "pending" || t == "suspended" || t == "cancelled"
    ensures GetStatusColor(s) == GetStatusColor(t) <==> s == t
  {
    ColourTable();
    assert ActiveColour[3] == 'g' && PendingColour[3] == 'y' && SuspendedColour[3] == 'o' && CancelledColour[3] == 'r';
    if s != t {
      assert GetStatusColor(s)[3] != GetStatusColor(t)[3];
    }
  }

  /** The badge caption: the first character upper-cased, the rest as is. */
  function Capitalize(s: string): (r: string)
    ensures |r| == |s|
    ensures s != [] ==> r[0] == UpperChar(s[0]) && r[1..] == s[1..]
  {
    if s == [] then [] else [UpperChar(s[0])] + s[1..]
  }

  /** Capitalising a caption again changes nothing, and a caption still reads
      as its status once lower-cased if the rest was lower case already. */
  lemma CapitalizeIdempotent(s: string)
    ensures Capitalize(Capitalize(s)) == Capitalize(s)
    ensures (forall i :: 0 <= i < |s| ==> !IsUpper(s[i])) ==> ToLower(Capitalize(s)) == s
  {
    if s != [] && forall i :: 0 <= i < |s| ==> !IsUpper(s[i]) {
      var c := Capitalize(s);
      forall i | 0 <= i < |s|
        ensures ToLower(c)[i] == s[i]
      {
        if i > 0 { assert c[i] == c[1..][i - 1] == s[i]; }
      }
    }
  }

  // ---------------------------------------------------------------------
  // Search and filters
  // ---------------------------------------------------------------------

  /** The search term occurs, ignoring ASCII case, in the service or the id. */
  predicate MatchesSearch(o: PageOrder, term: string)
  {
    Includes(ToLower(o.service), ToLower(term)) || Includes(ToLower(o.id), ToLower(term))
  }

  predicate MatchesStatus(o: PageOrder, statusFilter: string)
  {
    statusFilter == "all" || o.status == statusFilter
  }

  predicate MatchesType(o: PageOrder, typeFilter: string)
  {
    typeFilter == "all" || ToLower(o.planType) == ToLower(typeFilter)
  }

  predicate Keep(o: PageOrder, term: string, statusFilter: string, typeFilter: string)
  {
    MatchesSearch(o, term) && MatchesStatus(o, statusFilter) && MatchesType(o, typeFilter)
  }

  /** r is s with some elements left out, the rest in their order. */
  predicate IsSubsequence(r: seq<PageOrder>, s: seq<PageOrder>)
    decreases |s|
  {
    if r == [] then true
    else if s == [] then false
    else (r[0] == s[0] && IsSubsequence(r[1..], s[1..])) || IsSubsequence(r, s[1..])
  }

  /** `filteredOrders`: the orders the three inputs keep, in list order. */
  function Filtered(orders: seq<PageOrder>, term: string, statusFilter: string, typeFilter: string)
    : (r: seq<PageOrder>)
    ensures IsSubsequence(r, orders)
    ensures forall k :: 0 <= k < |r| ==> Keep(r[k], term, statusFilter, typeFilter)
    ensures forall o :: multiset(r)[o] == if Keep(o, term, statusFilter, typeFilter) then multiset(orders)[o] else 0
    decreases |orders|
  {
    if orders == [] then []
    else
      var rest := Filtered(orders[1..], term, statusFilter, typeFilter);
      assert orders == [orders[0]] + orders[1..];
      if Keep(orders[0], term, statusFilter, typeFilter) then
        var r := [orders[0]] + rest;
        assert r[1..] == rest;
        r
      else rest
  }

  /** An empty search with both filters on "all" shows every order. */
  lemma {:induction false} NoFilterKeepsAll(orders: seq<PageOrder>)
    ensures Filtered(orders, "", "all", "all") == orders
    decreases |orders|
  {
    if orders != [] {
      IncludesEmpty(ToLower(orders[0].service));
      assert ToLower("") == "";
      NoFilterKeepsAll(orders[1..]);
    }
  }

  /** The type filter compares without regard to ASCII case: a filter value
      and its upper-case form keep the same orders. */
  lemma TypeFilterIgnoresCase(o: PageOrder, typeFilter: string)
    requires typeFilter != "all"
    ensures MatchesType(o, ToUpper(typeFilter)) == MatchesType(o, typeFilter)
  {
    LowerIgnoresCase(typeFilter);
    assert ToUpper(typeFilter) != "all" by {
      if |ToUpper(typeFilter)| == 3 { assert IsLower("all"[0]); }
    }
  }

  /** The search keeps an order exactly when the lower-cased term occurs at
      some position of the lower-cased service or id. */
  lemma SearchIff(o: PageOrder, term: string)
    ensures MatchesSearch(o, term) <==>
      (exists i :: OccursAt(ToLower(o.service), ToLower(term), i)) ||
      (exists i :: OccursAt(ToLower(o.id), ToLower(term), i))
  {
    IncludesIff(ToLower(o.service), ToLower(term));
    IncludesIff(ToLower(o.id), ToLower(term));
  }

  // ---------------------------------------------------------------------
  // Counts
  // ---------------------------------------------------------------------

  /** The number of orders with the given status. */
  function CountStatus(orders: seq<PageOrder>, status: string): (n: nat)
    ensures n <= |orders|
    ensures n == 0 <==> forall k :: 0 <= k < |orders| ==> orders[k].status != status
    ensures n == |orders| <==> forall k :: 0 <= k < |orders| ==> orders[k].status == status
    decreases |orders|
  {
    if orders == [] then 0
    else (if orders[0].status == status then 1 else 0) + CountStatus(orders[1..], status)
  }

  lemma {:induction false} CountsDisjoint(orders: seq<PageOrder>, a: string, b: string)
    requires a != b
    ensures CountStatus(orders, a) + CountStatus(orders, b) <= |orders|
    decreases |orders|
  {
    if orders != [] {
      CountsDisjoint(orders[1..], a, b);
    }
  }

  /** The count fields of `stats` (the float `totalSpent` is not modelled). */
  datatype PageStats = PageStats(total: nat, active: nat, pending: nat)

  function StatsOf(orders: seq<PageOrder>): (st: PageStats)
    ensures st.total == |orders|
    ensures st.active == CountStatus(orders, "active") && st.pending == CountStatus(orders, "pending")
    ensures st.active + st.pending <= st.total
  {
    CountsDisjoint(orders, "active", "pending");
    PageStats(|orders|, CountStatus(orders, "active"), CountStatus(orders, "pending"))
  }

  /** Example: the counts the page shows for its list: five orders, two active and one
      pending. */
  lemma PageCounts()
    ensures StatsOf(Orders) == PageStats(5, 2, 1)
  {
    assert "suspended" != "active" && "suspended" != "pending";
    assert "cancelled" != "active" && "cancelled" != "pending";
    assert "active" != "pending";
  }
}
