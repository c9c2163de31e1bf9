/**
 * Order extension (src/app/api/extend/route.ts, POST): validation, lookup by
 * id, the new expiry, the successor confirmation strings and the update.
 * The parsed body (None when it is not valid JSON), whether the lookup
 * query failed, the update's error and the clock are parameters.
 * `ExtendSpec` is the reference meaning; `OrderStore.OrderTable.Extend`
 * is proved to follow it.
 */
module ExtendRoute {
  import opened Js
  import opened Orders

  datatype ExtendRequest = ExtendRequest(orderId: Option<string>, newTtl: Option<int>)

  /** The body of a successful reply. */
  datatype Extended = Extended(message: string, newExpiry: int, newPnr: Option<string>, newHotelConf: Option<string>)

  /** The columns the update writes. */
  datatype Patch = Patch(pnr: Option<string>, hotelConf: Option<string>, ttl: Option<string>, expiry: Option<int>, updatedAt: int)

  const MissingFields: string := "Order ID and new TTL are required"
  const NotFound: string := "Order not found"
  const ExtendedMessage: string := "Order extended successfully"

  /** `!order_id || !new_ttl`: an absent or empty id, or an absent or zero number of days. */
  predicate MissingRequired(req: ExtendRequest)
  {
    !Truthy(req.orderId) || req.newTtl.None? || req.newTtl.value == 0
  }

  /** The successor of a confirmation: "EXTENDED-<old>-<timestamp>". */
  function Successor(conf: string, stamp: int): string
  {
    "EXTENDED-" + conf + "-" + IntText(stamp)
  }

  /** The PNR after extension: a successor only for a present PNR of a bundle with 'flight'. */
  function RenewedPnr(order: OrderRow, stamp: int): Option<string>
  {
    if Truthy(order.pnr) && "flight" in order.jsonData.bundle then Some(Successor(order.pnr.value, stamp)) else order.pnr
  }

  /** The hotel confirmation after extension: a successor only for a present one of a bundle with 'hotel'. */
  function RenewedHotelConf(order: OrderRow, stamp: int): Option<string>
  {
    if Truthy(order.hotelConf) && "hotel" in order.jsonData.bundle then Some(Successor(order.hotelConf.value, stamp)) else order.hotelConf
  }

  function PatchFor(order: OrderRow, newTtl: int, now: int): Patch
  {
    Patch(RenewedPnr(order, now), RenewedHotelConf(order, now), Some(IntText(newTtl) + " days"),
          Some(now + newTtl * MsPerDay), now)
  }

  function Apply(p: Patch, r: OrderRow): OrderRow
  {
    r.(pnr := p.pnr, hotelConf := p.hotelConf, ttl := p.ttl, expiry := p.expiry, updatedAt := p.updatedAt)
  }

  /** `update(patch).eq('id', id)`: every row with that id gets the patch. */
  function UpdateById(rows: seq<OrderRow>, id: string, p: Patch): (rows': seq<OrderRow>)
    ensures |rows'| == |rows|
  {
    seq(|rows|, i requires 0 <= i < |rows| => if rows[i].id == id then Apply(p, rows[i]) else rows[i])
  }

  /** The table after the request, and the reply. */
  function ExtendSpec(rows: seq<OrderRow>, body: Option<ExtendRequest>, lookupFails: bool,
                      updateError: Option<string>, now: int): (seq<OrderRow>, Reply<Extended>)
  {
    if body.None? then (rows, Failure(500, InternalError))
    else if MissingRequired(body.value) then (rows, Failure(400, MissingFields))
    else
      var id := body.value.orderId.value;
      var newTtl := body.value.newTtl.value;
      var found := RowWithId(rows, id);
      if lookupFails || found.None? then (rows, Failure(404, NotFound))
      else
        var p := PatchFor(found.value, newTtl, now);
        if updateError.Some? then (rows, Failure(500, updateError.value))
        else (UpdateById(rows, id, p), Success(Extended(ExtendedMessage, p.expiry.value, p.pnr, p.hotelConf)))
  }

  // ---------------------------------------------------------------------
  // Properties

  /** Every failure leaves the table as it was; a missing field is a 400 and an unknown id a 404. */
  lemma ExtendFailureWritesNothing(rows: seq<OrderRow>, body: Option<ExtendRequest>, lookupFails: bool,
                                   updateError: Option<string>, now: int)
    ensures ExtendSpec(rows, body, lookupFails, updateError, now).1.Failure? ==>
      ExtendSpec(rows, body, lookupFails, updateError, now).0 == rows
    ensures body.Some? && MissingRequired(body.value) ==>
      ExtendSpec(rows, body, lookupFails, updateError, now).1 == Failure(400, MissingFields)
    ensures body.Some? && !MissingRequired(body.value) && !HasId(rows, body.value.orderId.value) ==>
      ExtendSpec(rows, body, lookupFails, updateError, now).1 == Failure(404, NotFound)
    ensures body.Some? && !MissingRequired(body.value) && lookupFails ==>
      ExtendSpec(rows, body, lookupFails, updateError, now).1 == Failure(404, NotFound)
    ensures body.Some? && !MissingRequired(body.value) && HasId(rows, body.value.orderId.value) && !lookupFails &&
            updateError.Some? ==>
      ExtendSpec(rows, body, lookupFails, updateError, now).1 == Failure(500, updateError.value)
  {
  }

  /** A request is served exactly when the body is complete, the row exists and both queries succeed. */
  lemma ExtendSucceedsIff(rows: seq<OrderRow>, body: Option<ExtendRequest>, lookupFails: bool,
                          updateError: Option<string>, now: int)
    ensures ExtendSpec(rows, body, lookupFails, updateError, now).1.Success? <==>
      body.Some? && !MissingRequired(body.value) && HasId(rows, body.value.orderId.value) &&
      !lookupFails && updateError.None?
  {
  }

  /**
   * A served request rewrites only the row with the requested id, and in it
   * only pnr, hotel_conf, ttl, expiry and updated_at: the new expiry is
   * new_ttl days from now whatever the old one was, and the status is neither
   * read nor written. The reply echoes what was written.
   */
  lemma {:induction false} ExtendSuccessRow(rows: seq<OrderRow>, body: Option<ExtendRequest>, lookupFails: bool,
                                            updateError: Option<string>, now: int, i: nat)
    requires UniqueIds(rows) && i < |rows|
    requires ExtendSpec(rows, body, lookupFails, updateError, now).1.Success?
    ensures var (rows', reply) := ExtendSpec(rows, body, lookupFails, updateError, now);
      var id := body.value.orderId.value;
      var newTtl := body.value.newTtl.value;
      var before := rows[i];
      var after := rows'[i];
      |rows'| == |rows| &&
      (before.id != id ==> after == before) &&
      (before.id == id ==>
        after.expiry == Some(now + newTtl * MsPerDay) && reply.body.newExpiry == now + newTtl * MsPerDay &&
        after.ttl == Some(IntText(newTtl) + " days") && after.updatedAt == now &&
        after.pnr == reply.body.newPnr == RenewedPnr(before, now) &&
        after.hotelConf == reply.body.newHotelConf == RenewedHotelConf(before, now) &&
        after.id == before.id && after.userId == before.userId && after.status == before.status &&
        after.jsonData == before.jsonData && after.createdAt == before.createdAt)
  {
    var id := body.value.orderId.value;
    if rows[i].id == id {
      RowWithIdAt(rows, i);
    }
  }

  /** The PNR is renewed exactly when it was present and the bundle holds 'flight'; otherwise it is kept. */
  lemma RenewedPnrIff(order: OrderRow, stamp: int)
    ensures RenewedPnr(order, stamp) != order.pnr <==> Truthy(order.pnr) && "flight" in order.jsonData.bundle
    ensures RenewedPnr(order, stamp).Some? <==> order.pnr.Some?
  {
    if Truthy(order.pnr) && "flight" in order.jsonData.bundle {
      SuccessorIsLonger(order.pnr.value, stamp);
    }
  }

  /** The hotel confirmation is renewed exactly when it was present and the bundle holds 'hotel'. */
  lemma RenewedHotelConfIff(order: OrderRow, stamp: int)
    ensures RenewedHotelConf(order, stamp) != order.hotelConf <==> Truthy(order.hotelConf) && "hotel" in order.jsonData.bundle
    ensures RenewedHotelConf(order, stamp).Some? <==> order.hotelConf.Some?
  {
    if Truthy(order.hotelConf) && "hotel" in order.jsonData.bundle {
      SuccessorIsLonger(order.hotelConf.value, stamp);
    }
  }

  lemma SuccessorIsLonger(conf: string, stamp: int)
    ensures |Successor(conf, stamp)| > |conf| + 10
  {
  }

  /** The old confirmation can be read back from its successor, given the timestamp. */
  lemma SuccessorRoundTrip(conf: string, stamp: int)
    ensures var s := Successor(conf, stamp);
      s[9..|s| - |IntText(stamp)| - 1] == conf
  {
    var s := Successor(conf, stamp);
    assert s == "EXTENDED-" + conf + "-" + IntText(stamp);
    assert s[9..|s| - |IntText(stamp)| - 1] == s[9..9 + |conf|];
    assert s[9..9 + |conf|] == conf by {
      forall k | 0 <= k < |conf|
        ensures s[9 + k] == conf[k]
      {
      }
    }
  }

  /** Extending can move the expiry backwards: only now and new_ttl decide it. */
  lemma ExpiryIgnoresOldExpiry(rows: seq<OrderRow>, req: ExtendRequest, now: int, i: nat)
    requires UniqueIds(rows) && i < |rows| && !MissingRequired(req) && rows[i].id == req.orderId.value
    requires rows[i].expiry.Some? && rows[i].expiry.value > now + req.newTtl.value * MsPerDay
    ensures var rows' := ExtendSpec(rows, Some(req), false, None, now).0;
      rows'[i].expiry.value < rows[i].expiry.value
  {
    assert HasId(rows, req.orderId.value);
    ExtendSuccessRow(rows, Some(req), false, None, now, i);
  }

  /** With unique ids, the update by id is an update at the row's index. */
  lemma UpdateByIdAt(rows: seq<OrderRow>, k: nat, p: Patch)
    requires UniqueIds(rows) && k < |rows|
    ensures UpdateById(rows, rows[k].id, p) == rows[k := Apply(p, rows[k])]
  {
  }

  /** Extension keeps the primary key unique. */
  lemma ExtendKeepsIdsUnique(rows: seq<OrderRow>, body: Option<ExtendRequest>, lookupFails: bool,
                             updateError: Option<string>, now: int)
    requires UniqueIds(rows)
    ensures UniqueIds(ExtendSpec(rows, body, lookupFails, updateError, now).0)
  {
    var rows' := ExtendSpec(rows, body, lookupFails, updateError, now).0;
    assert forall i :: 0 <= i < |rows'| ==> rows'[i].id == rows[i].id;
  }
}
