/**
 * The hosted `orders` table as an in-memory table keyed by order id, and
 * the three handlers that write to it, each proved to follow the reference
 * meaning stated in its route module.
 */
module OrderStore {
  import opened Js
  import opened Orders
  import opened GenerateRoute
  import opened ExtendRoute
  import opened AutoCancelRoute

  class OrderTable {
    var rows: seq<OrderRow>

    /** `id` is the primary key. */
    ghost predicate Valid()
      reads this
    {
      UniqueIds(rows)
    }

    constructor ()
      ensures rows == [] && Valid()
    {
      rows := [];
    }

    /** `.select('*').eq('id', id).single()`: the position of the row with that id, if any. */
    method Find(id: string) returns (found: Option<nat>)
      ensures found.Some? ==> found.value < |rows| && rows[found.value].id == id
      ensures found.None? <==> !HasId(rows, id)
    {
      var i := 0;
      while i < |rows|
        invariant 0 <= i <= |rows|
        invariant forall k :: 0 <= k < i ==> rows[k].id != id
      {
        if rows[i].id == id {
          return Some(i);
        }
        i := i + 1;
      }
      return None;
    }

    /** POST /api/orders/generate (src/app/api/orders/generate/route.ts:14-162). */
    method Generate(body: Option<GenerateRequest>, authHeader: Option<string>, flight: FlightReply,
                    insert: InsertReply, now: int) returns (reply: Reply<Generated>)
      requires Valid()
      modifies this
      ensures Valid()
      ensures (rows, reply) == GenerateSpec(old(rows), body, authHeader, flight, insert, now)
    {
      if body.None? {
        return Failure(500, InternalError);
      }
      var req := body.value;
      if !Truthy(authHeader) {
        return Failure(401, Unauthorized);
      }

      var pnr: Option<string> := None;
      var hotelConf: Option<string> := None;

      // Flight hold
      if "flight" in req.bundle {
        if !ValidArrayLength(req.passengers) || flight.NetworkFailure? {
          return Failure(500, InternalError);
        }
        if flight.ok && Truthy(flight.offerId) {
          pnr := flight.offerId;
        } else {
          pnr := Some(PlaceholderPnr);
        }
      }

      // Hotel hold
      if "hotel" in req.bundle {
        hotelConf := Some(MockHotelConf);
      }

      // Insurance certificate
      var insuranceData: Option<InsuranceData> := None;
      if "insurance" in req.bundle {
        insuranceData := Some(MockInsurance);
      }

      var expiry := now + req.ttlDays * MsPerDay;

      match insert
      case Rejected(message) =>
        return Failure(500, message);
      case Assigned(id) =>
        var existing := Find(id);
        if existing.Some? {
          return Failure(500, DuplicateKey);
        }
        GenerateKeepsIdsUnique(rows, body, authHeader, flight, insert, now);
        rows := rows + [OrderRow(id, MockUser, pnr, hotelConf, Some(IntText(req.ttlDays) + " days"), Some(expiry),
                                 Completed,
                                 OrderDetails(req.origin, req.dest, req.dates, req.passengers, req.visaType,
                                              req.bundle, insuranceData, []),
                                 now, now)];
        reply := Success(Generated(id, pnr, hotelConf, "/api/orders/" + id + "/pdf", [], expiry));
    }

    /** POST /api/extend (src/app/api/extend/route.ts:4-76). */
    method Extend(body: Option<ExtendRequest>, lookupFails: bool, updateError: Option<string>, now: int)
      returns (reply: Reply<Extended>)
      requires Valid()
      modifies this
      ensures Valid()
      ensures (rows, reply) == ExtendSpec(old(rows), body, lookupFails, updateError, now)
    {
      if body.None? {
        return Failure(500, InternalError);
      }
      var req := body.value;
      if !Truthy(req.orderId) || req.newTtl.None? || req.newTtl.value == 0 {
        return Failure(400, MissingFields);
      }
      var id := req.orderId.value;
      var newTtl := req.newTtl.value;

      var k := Find(id);
      if lookupFails || k.None? {
        return Failure(404, NotFound);
      }
      var order := rows[k.value];
      RowWithIdAt(rows, k.value);

      var newExpiry := now + newTtl * MsPerDay;
      var newPnr := order.pnr;
      var newHotelConf := order.hotelConf;
      if Truthy(order.pnr) && "flight" in order.jsonData.bundle {
        newPnr := Some("EXTENDED-" + order.pnr.value + "-" + IntText(now));
      }
      if Truthy(order.hotelConf) && "hotel" in order.jsonData.bundle {
        newHotelConf := Some("EXTENDED-" + order.hotelConf.value + "-" + IntText(now));
      }

      if updateError.Some? {
        return Failure(500, updateError.value);
      }
      UpdateByIdAt(rows, k.value, PatchFor(order, newTtl, now));
      ExtendKeepsIdsUnique(rows, body, lookupFails, updateError, now);
      rows := rows[k.value := order.(pnr := newPnr, hotelConf := newHotelConf, ttl := Some(IntText(newTtl) + " days"),
                                     expiry := Some(newExpiry), updatedAt := now)];
      reply := Success(Extended(ExtendedMessage, newExpiry, newPnr, newHotelConf));
    }

    /**
     * One pass of the sweep's loop body (auto-cancel/route.ts:20-53): the
     * provider cancellations attempted for the order, then its status update;
     * the id is reported unless the update threw.
     */
    method CancelCandidate(order: OrderRow, faults: map<string, Fault>)
      returns (attempted: seq<ProviderCall>, reported: seq<string>)
      modifies this
      ensures attempted == CallsFor(order)
      ensures reported == if order.id in faults && faults[order.id] == UpdateThrew then [] else [order.id]
      ensures rows == if order.id in faults then old(rows) else CancelWhere(old(rows), {order.id})
    {
      attempted := [];
      if Truthy(order.pnr) {
        attempted := attempted + [CancelFlight(order.pnr.value)];
      }
      if Truthy(order.hotelConf) {
        attempted := attempted + [CancelHotel(order.hotelConf.value)];
      }

      // A thrown update is logged and the order is not reported; a rejected one is not even noticed.
      reported := [];
      if !(order.id in faults && faults[order.id] == UpdateThrew) {
        if order.id !in faults {
          rows := CancelWhere(rows, {order.id});
        }
        reported := [order.id];
      }
    }

    /** GET /api/orders/auto-cancel (src/app/api/orders/auto-cancel/route.ts:4-68). */
    method AutoCancel(queryError: Option<string>, now: int, faults: map<string, Fault>)
      returns (reply: Reply<Swept>, calls: seq<ProviderCall>)
      requires Valid()
      modifies this
      ensures Valid()
      ensures (rows, reply, calls) == SweepSpec(old(rows), queryError, now, faults)
    {
      if queryError.Some? {
        return Failure(500, queryError.value), [];
      }
      SweepKeepsIdsUnique(rows, queryError, now, faults);
      var expiredOrders := Candidates(rows, now);
      var cancelledOrders: seq<string> := [];
      calls := [];
      ghost var rows0 := rows;
      for i := 0 to |expiredOrders|
        invariant rows == CancelWhere(rows0, UpdatedIds(expiredOrders[..i], faults))
        invariant cancelledOrders == ReportedIds(expiredOrders[..i], faults)
        invariant calls == CallsOf(expiredOrders[..i])
      {
        var order := expiredOrders[i];
        ProcessOne(expiredOrders[..i], order, faults);
        assert expiredOrders[..i + 1] == expiredOrders[..i] + [order];
        CancelOneMore(rows0, UpdatedIds(expiredOrders[..i], faults), order.id);
        var attempted, reported := CancelCandidate(order, faults);
        calls := calls + attempted;
        cancelledOrders := cancelledOrders + reported;
      }
      assert expiredOrders[..|expiredOrders|] == expiredOrders;
      reply := Success(Swept(SweptMessage(|cancelledOrders|), cancelledOrders));
    }
  }
}
