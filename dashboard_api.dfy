/**
 * The dashboard listing (src/app/api/dashboard/route.ts, GET): the caller's
 * orders, newest first, each with the derived `time_left` and `expired`.
 * The authorization header, the query's error and the clock are parameters.
 */
module DashboardRoute {
  import opened Js
  import opened Orders

  /** An order with the two derived fields the listing adds. */
  datatype OrderView = OrderView(order: OrderRow, timeLeft: int, expired: bool)

  datatype Listing = Listing(orders: seq<OrderView>, totalOrders: int)

  /** `Math.max(0, expiry - now)`, and 0 for an order without an expiry. */
  function TimeLeft(expiry: Option<int>, now: int): int
  {
    match expiry
    case None => 0
    case Some(e) => if e - now > 0 then e - now else 0
  }

  /** `new Date(expiry) < new Date()`, and false for an order without an expiry. */
  predicate IsExpired(expiry: Option<int>, now: int)
  {
    expiry.Some? && expiry.value < now
  }

  function View(r: OrderRow, now: int): OrderView
  {
    OrderView(r, TimeLeft(r.expiry, now), IsExpired(r.expiry, now))
  }

  function Views(orders: seq<OrderRow>, now: int): (views: seq<OrderView>)
    ensures |views| == |orders|
  {
    seq(|orders|, i requires 0 <= i < |orders| => View(orders[i], now))
  }

  // ---------------------------------------------------------------------
  // The query: `.eq('user_id', userId).order('created_at', { ascending: false })`

  function OwnedBy(rows: seq<OrderRow>, userId: string): (owned: seq<OrderRow>)
    ensures multiset(owned) <= multiset(rows)
    ensures forall r :: r in owned <==> r in rows && r.userId == userId
  {
    if rows == [] then []
    else
      var rest := OwnedBy(rows[1..], userId);
      assert rows == [rows[0]] + rows[1..];
      if rows[0].userId == userId then [rows[0]] + rest else rest
  }

  /** The caller's rows occur in the result exactly as often as in the table, and no other row occurs. */
  lemma {:induction false} OwnedByCounts(rows: seq<OrderRow>, userId: string)
    ensures forall r :: multiset(OwnedBy(rows, userId))[r] == if r.userId == userId then multiset(rows)[r] else 0
  {
    if rows != [] {
      OwnedByCounts(rows[1..], userId);
      assert rows == [rows[0]] + rows[1..];
    }
  }

  predicate NewestFirst(orders: seq<OrderRow>)
  {
    forall i, j :: 0 <= i < j < |orders| ==> orders[i].createdAt >= orders[j].createdAt
  }

  /** Puts r in front of the first order that is not newer than it. */
  function InsertByCreated(r: OrderRow, orders: seq<OrderRow>): seq<OrderRow>
  {
    if orders == [] || orders[0].createdAt <= r.createdAt then [r] + orders
    else [orders[0]] + InsertByCreated(r, orders[1..])
  }

  function SortNewestFirst(orders: seq<OrderRow>): seq<OrderRow>
  {
    if orders == [] then [] else InsertByCreated(orders[0], SortNewestFirst(orders[1..]))
  }

  /** Inserting adds exactly r. */
  lemma {:induction false} InsertByCreatedAdds(r: OrderRow, orders: seq<OrderRow>)
    ensures multiset(InsertByCreated(r, orders)) == multiset(orders) + multiset{r}
  {
    if orders != [] && orders[0].createdAt > r.createdAt {
      InsertByCreatedAdds(r, orders[1..]);
      assert orders == [orders[0]] + orders[1..];
    }
  }

  /** Inserting keeps the order newest first. */
  lemma {:induction false} InsertByCreatedSorted(r: OrderRow, orders: seq<OrderRow>)
    requires NewestFirst(orders)
    ensures NewestFirst(InsertByCreated(r, orders))
  {
    if orders != [] && orders[0].createdAt > r.createdAt {
      var head := orders[0];
      var rest := InsertByCreated(r, orders[1..]);
      InsertByCreatedSorted(r, orders[1..]);
      InsertByCreatedAdds(r, orders[1..]);
      forall j | 0 <= j < |rest|
        ensures head.createdAt >= rest[j].createdAt
      {
        assert rest[j] in multiset(rest);
        if rest[j] != r {
          assert rest[j] in orders[1..];
        }
      }
      ConsNewestFirst(head, rest);
    }
  }

  /** An order at least as new as every order of a newest-first list can go in front of it. */
  lemma ConsNewestFirst(head: OrderRow, rest: seq<OrderRow>)
    requires NewestFirst(rest)
    requires forall j :: 0 <= j < |rest| ==> head.createdAt >= rest[j].createdAt
    ensures NewestFirst([head] + rest)
  {
    var result := [head] + rest;
    forall i, j | 0 <= i < j < |result|
      ensures result[i].createdAt >= result[j].createdAt
    {
      if i > 0 {
        assert result[i] == rest[i - 1] && result[j] == rest[j - 1];
      }
    }
  }

  /** The sort yields the same orders, newest first. */
  lemma {:induction false} SortNewestFirstCorrect(orders: seq<OrderRow>)
    ensures NewestFirst(SortNewestFirst(orders))
    ensures multiset(SortNewestFirst(orders)) == multiset(orders)
  {
    if orders != [] {
      SortNewestFirstCorrect(orders[1..]);
      InsertByCreatedSorted(orders[0], SortNewestFirst(orders[1..]));
      InsertByCreatedAdds(orders[0], SortNewestFirst(orders[1..]));
      assert orders == [orders[0]] + orders[1..];
    }
  }

  /** The query result. */
  function CallerOrders(rows: seq<OrderRow>): seq<OrderRow>
  {
    SortNewestFirst(OwnedBy(rows, MockUser))
  }

  /** The reply of GET /api/dashboard. */
  function DashboardSpec(rows: seq<OrderRow>, authHeader: Option<string>, queryError: Option<string>, now: int)
    : Reply<Listing>
  {
    if !Truthy(authHeader) then Failure(401, Unauthorized)
    else if queryError.Some? then Failure(500, queryError.value)
    else
      var orders := CallerOrders(rows);
      Success(Listing(Views(orders, now), |orders|))
  }

  // ---------------------------------------------------------------------
  // Properties

  /** `time_left` is never negative, and an expired order has none left; at the expiry instant it is neither. */
  lemma TimeLeftAndExpired(expiry: Option<int>, now: int)
    ensures TimeLeft(expiry, now) >= 0
    ensures IsExpired(expiry, now) ==> TimeLeft(expiry, now) == 0
    ensures expiry.Some? ==> TimeLeft(expiry, now) == (if expiry.value > now then expiry.value - now else 0)
    ensures expiry.None? ==> TimeLeft(expiry, now) == 0 && !IsExpired(expiry, now)
    ensures expiry == Some(now) ==> TimeLeft(expiry, now) == 0 && !IsExpired(expiry, now)
    ensures TimeLeft(expiry, now) > 0 ==> !IsExpired(expiry, now) && expiry.value - now == TimeLeft(expiry, now)
  {
  }

  /**
   * A listing holds exactly the caller's orders, each as often as in
   * the table, newest first, each passed through unchanged beside its
   * derived fields; `total_orders` is its length. No header means 401.
   */
  lemma ListingCorrect(rows: seq<OrderRow>, authHeader: Option<string>, queryError: Option<string>, now: int)
    ensures !Truthy(authHeader) ==> DashboardSpec(rows, authHeader, queryError, now) == Failure(401, Unauthorized)
    ensures DashboardSpec(rows, authHeader, queryError, now).Success? <==> Truthy(authHeader) && queryError.None?
    ensures DashboardSpec(rows, authHeader, queryError, now).Success? ==>
      var listing := DashboardSpec(rows, authHeader, queryError, now).body;
      var orders := seq(|listing.orders|, i requires 0 <= i < |listing.orders| => listing.orders[i].order);
      listing.totalOrders == |listing.orders| &&
      multiset(orders) == multiset(OwnedBy(rows, MockUser)) &&
      (forall r :: r in orders <==> r in rows && r.userId == MockUser) &&
      NewestFirst(orders) &&
      (forall i :: 0 <= i < |listing.orders| ==>
         listing.orders[i] == OrderView(orders[i], TimeLeft(orders[i].expiry, now), IsExpired(orders[i].expiry, now)))
  {
    if Truthy(authHeader) && queryError.None? {
      var sorted := CallerOrders(rows);
      SortNewestFirstCorrect(OwnedBy(rows, MockUser));
      var listing := DashboardSpec(rows, authHeader, queryError, now).body;
      var orders := seq(|listing.orders|, i requires 0 <= i < |listing.orders| => listing.orders[i].order);
      assert orders == sorted;
      forall r
        ensures r in sorted <==> r in rows && r.userId == MockUser
      {
        assert r in sorted <==> r in multiset(sorted);
        assert r in OwnedBy(rows, MockUser) <==> r in multiset(OwnedBy(rows, MockUser));
      }
    }
  }
}
