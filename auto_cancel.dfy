/**
 * The sweep of past-expiry orders (src/app/api/orders/auto-cancel/route.ts,
 * GET). The query's error, the clock and the per-order faults of the status
 * update are parameters; the provider cancellations the sweep attempts are
 * returned as a list of calls, since their outcome is swallowed anyway.
 * `SweepSpec` is the reference meaning; `OrderStore.OrderTable.AutoCancel`
 * is proved to follow it.
 */
module AutoCancelRoute {
  import opened Js
  import opened Orders

  /**
   * What goes wrong with one order's status update: the store answers with
   * an error, which the handler does not inspect, or the call throws, which
   * the per-order catch logs.
   */
  datatype Fault = UpdateRejected | UpdateThrew

  datatype ProviderCall = CancelFlight(pnr: string) | CancelHotel(hotelConf: string)

  datatype Swept = Swept(message: string, cancelledOrders: seq<string>)

  /** `.lt('expiry', now).eq('status', 'completed')`; a null expiry never compares. */
  predicate IsCandidate(r: OrderRow, now: int)
  {
    r.status == Completed && r.expiry.Some? && r.expiry.value < now
  }

  /** The query result, in table order. */
  function Candidates(rows: seq<OrderRow>, now: int): (cands: seq<OrderRow>)
    ensures forall r :: r in cands <==> r in rows && IsCandidate(r, now)
    ensures |cands| <= |rows|
  {
    if rows == [] then []
    else
      var last := rows[|rows| - 1];
      assert rows == rows[..|rows| - 1] + [last];
      Candidates(rows[..|rows| - 1], now) + (if IsCandidate(last, now) then [last] else [])
  }

  /** The provider cancellations attempted for one order: flight if it has a PNR, hotel if it has a confirmation. */
  function CallsFor(r: OrderRow): seq<ProviderCall>
  {
    (if Truthy(r.pnr) then [CancelFlight(r.pnr.value)] else [])
    + (if Truthy(r.hotelConf) then [CancelHotel(r.hotelConf.value)] else [])
  }

  function CallsOf(orders: seq<OrderRow>): seq<ProviderCall>
  {
    if orders == [] then [] else CallsOf(orders[..|orders| - 1]) + CallsFor(orders[|orders| - 1])
  }

  /** The ids pushed onto `cancelledOrders`: every processed order whose update did not throw. */
  function ReportedIds(orders: seq<OrderRow>, faults: map<string, Fault>): seq<string>
  {
    if orders == [] then []
    else
      var last := orders[|orders| - 1];
      ReportedIds(orders[..|orders| - 1], faults)
      + (if last.id in faults && faults[last.id] == UpdateThrew then [] else [last.id])
  }

  /** The ids whose status update took effect. */
  function UpdatedIds(orders: seq<OrderRow>, faults: map<string, Fault>): set<string>
  {
    set k | 0 <= k < |orders| && orders[k].id !in faults :: orders[k].id
  }

  /** `update({ status: 'cancelled' })` on every row whose id is in `ids`. */
  function CancelWhere(rows: seq<OrderRow>, ids: set<string>): (rows': seq<OrderRow>)
    ensures |rows'| == |rows|
  {
    seq(|rows|, i requires 0 <= i < |rows| => if rows[i].id in ids then rows[i].(status := Cancelled) else rows[i])
  }

  function SweptMessage(count: int): string
  {
    "Cancelled " + IntText(count) + " expired orders"
  }

  /** The table after the sweep, the reply, and the provider calls attempted. */
  function SweepSpec(rows: seq<OrderRow>, queryError: Option<string>, now: int, faults: map<string, Fault>)
    : (seq<OrderRow>, Reply<Swept>, seq<ProviderCall>)
  {
    if queryError.Some? then (rows, Failure(500, queryError.value), [])
    else
      var cands := Candidates(rows, now);
      var ids := ReportedIds(cands, faults);
      (CancelWhere(rows, UpdatedIds(cands, faults)), Success(Swept(SweptMessage(|ids|), ids)), CallsOf(cands))
  }

  // ---------------------------------------------------------------------
  // Properties

  /**
   * Row by row: a candidate whose update took effect has status
   * 'cancelled' and is otherwise unchanged; every other row is unchanged.
   */
  lemma SweepRowByRow(rows: seq<OrderRow>, now: int, faults: map<string, Fault>, i: nat)
    requires UniqueIds(rows) && i < |rows|
    ensures var rows' := SweepSpec(rows, None, now, faults).0;
      |rows'| == |rows| &&
      rows'[i] == if IsCandidate(rows[i], now) && rows[i].id !in faults then rows[i].(status := Cancelled) else rows[i]
  {
    var cands := Candidates(rows, now);
    if rows[i].id in UpdatedIds(cands, faults) {
      var k :| 0 <= k < |cands| && cands[k].id !in faults && cands[k].id == rows[i].id;
      assert cands[k] in rows;
      var j :| 0 <= j < |rows| && rows[j] == cands[k];
      assert j == i;
    }
    if IsCandidate(rows[i], now) && rows[i].id !in faults {
      assert rows[i] in cands;
      var k :| 0 <= k < |cands| && cands[k] == rows[i];
    }
  }

  /** A failed query changes nothing and attempts nothing. */
  lemma SweepQueryErrorWritesNothing(rows: seq<OrderRow>, message: string, now: int, faults: map<string, Fault>)
    ensures SweepSpec(rows, Some(message), now, faults) == (rows, Failure(500, message), [])
  {
  }

  /** Without faults the reported ids are exactly the candidates' ids, in scan order. */
  lemma {:induction false} ReportedIdsWithoutFaults(orders: seq<OrderRow>)
    ensures |ReportedIds(orders, map[])| == |orders|
    ensures forall k :: 0 <= k < |orders| ==> ReportedIds(orders, map[])[k] == orders[k].id
  {
    if orders != [] {
      ReportedIdsWithoutFaults(orders[..|orders| - 1]);
    }
  }

  /** Every reported id is the id of a processed order whose status update did not throw; there are at most as many as orders. */
  lemma {:induction false} ReportedIdsAreProcessed(orders: seq<OrderRow>, faults: map<string, Fault>)
    ensures |ReportedIds(orders, faults)| <= |orders|
    ensures forall id :: id in ReportedIds(orders, faults) <==>
      exists k :: 0 <= k < |orders| && orders[k].id == id && !(id in faults && faults[id] == UpdateThrew)
  {
    if orders != [] {
      var init := orders[..|orders| - 1];
      ReportedIdsAreProcessed(init, faults);
      forall id | (exists k :: 0 <= k < |orders| && orders[k].id == id && !(id in faults && faults[id] == UpdateThrew))
        ensures id in ReportedIds(orders, faults)
      {
        var k :| 0 <= k < |orders| && orders[k].id == id && !(id in faults && faults[id] == UpdateThrew);
        if k < |init| {
          assert init[k].id == id;
        }
      }
      forall id | id in ReportedIds(orders, faults)
        ensures exists k :: 0 <= k < |orders| && orders[k].id == id && !(id in faults && faults[id] == UpdateThrew)
      {
        if id in ReportedIds(init, faults) {
          var k :| 0 <= k < |init| && init[k].id == id && !(id in faults && faults[id] == UpdateThrew);
          assert orders[k].id == id;
        }
      }
    }
  }

  /** The flight cancel is attempted exactly for the candidates with a PNR, the hotel cancel for those with a confirmation. */
  lemma {:induction false} CallsOfIff(orders: seq<OrderRow>, c: ProviderCall)
    ensures c in CallsOf(orders) <==> exists r :: r in orders && c in CallsFor(r)
  {
    if orders != [] {
      var init := orders[..|orders| - 1];
      var last := orders[|orders| - 1];
      CallsOfIff(init, c);
      assert orders == init + [last];
      assert forall r :: r in orders <==> r in init || r == last;
    }
  }

  /** After a sweep without faults, a second sweep at the same time finds no candidate and changes nothing. */
  lemma SweepIdempotent(rows: seq<OrderRow>, now: int)
    requires UniqueIds(rows)
    ensures var rows' := SweepSpec(rows, None, now, map[]).0;
      Candidates(rows', now) == [] &&
      SweepSpec(rows', None, now, map[]) == (rows', Success(Swept(SweptMessage(0), [])), [])
  {
    var rows' := SweepSpec(rows, None, now, map[]).0;
    forall i | 0 <= i < |rows'|
      ensures !IsCandidate(rows'[i], now)
    {
      SweepRowByRow(rows, now, map[], i);
    }
    NoCandidates(rows', now);
    assert UpdatedIds([], map[]) == {};
    assert CancelWhere(rows', {}) == rows';
  }

  /** A table where no row qualifies yields an empty query result. */
  lemma {:induction false} NoCandidates(rows: seq<OrderRow>, now: int)
    requires forall i :: 0 <= i < |rows| ==> !IsCandidate(rows[i], now)
    ensures Candidates(rows, now) == []
  {
    if rows != [] {
      NoCandidates(rows[..|rows| - 1], now);
    }
  }

  /** The sweep leaves every id where it was, so the primary key stays unique. */
  lemma SweepKeepsIdsUnique(rows: seq<OrderRow>, queryError: Option<string>, now: int, faults: map<string, Fault>)
    requires UniqueIds(rows)
    ensures UniqueIds(SweepSpec(rows, queryError, now, faults).0)
  {
    var rows' := SweepSpec(rows, queryError, now, faults).0;
    assert forall i :: 0 <= i < |rows'| ==> rows'[i].id == rows[i].id;
  }

  // ---------------------------------------------------------------------
  // Steps of the loop

  /** One more processed order extends the calls and the reported ids by that order alone. */
  lemma ProcessOne(orders: seq<OrderRow>, r: OrderRow, faults: map<string, Fault>)
    ensures CallsOf(orders + [r]) == CallsOf(orders) + CallsFor(r)
    ensures ReportedIds(orders + [r], faults) ==
      ReportedIds(orders, faults) + (if r.id in faults && faults[r.id] == UpdateThrew then [] else [r.id])
    ensures UpdatedIds(orders + [r], faults) == UpdatedIds(orders, faults) + (if r.id in faults then {} else {r.id})
  {
    assert (orders + [r])[..|orders|] == orders;
    var both := orders + [r];
    forall id | id in UpdatedIds(both, faults)
      ensures id in UpdatedIds(orders, faults) + (if r.id in faults then {} else {r.id})
    {
      var k :| 0 <= k < |both| && both[k].id !in faults && both[k].id == id;
      if k < |orders| {
        assert orders[k].id == id;
      }
    }
    forall id | id in UpdatedIds(orders, faults)
      ensures id in UpdatedIds(both, faults)
    {
      var k :| 0 <= k < |orders| && orders[k].id !in faults && orders[k].id == id;
      assert both[k].id == id;
    }
    if r.id !in faults {
      assert both[|orders|].id == r.id;
    }
  }

  /** Updating one more id's status is cancelling one more id. */
  lemma CancelOneMore(rows: seq<OrderRow>, ids: set<string>, id: string)
    ensures CancelWhere(CancelWhere(rows, ids), {id}) == CancelWhere(rows, ids + {id})
  {
  }
}
