/**
 * Order creation (src/app/api/orders/generate/route.ts, POST): the rules
 * that decide the reply and the row written. The outside world enters as
 * parameters: the parsed request body (None when it is not valid JSON), the
 * authorization header, what the flight provider answered, what the store
 * answered to the insert, and the clock. `GenerateSpec` is the reference
 * meaning; `OrderStore.OrderTable.Generate` is proved to follow it.
 */
module GenerateRoute {
  import opened Js
  import opened Orders

  datatype GenerateRequest = GenerateRequest(
    origin: string,
    dest: string,
    dates: string,
    passengers: int,
    visaType: string,
    ttlDays: int,
    bundle: seq<string>)

  /** The flight provider's answer to the offer request: none at all (the fetch throws), or a status and an offer id. */
  datatype FlightReply = NetworkFailure | Replied(ok: bool, offerId: Option<string>)

  /** The store's answer to the insert: the id it assigned, or its error message. */
  datatype InsertReply = Assigned(id: string) | Rejected(message: string)

  /** The body of a successful reply. */
  datatype Generated = Generated(
    orderId: string,
    pnr: Option<string>,
    hotelConf: Option<string>,
    pdfUrl: string,
    screenshots: seq<string>,
    expiry: int)

  /** A step that either yields a value or throws into the handler's catch. */
  datatype Step<T> = Done(value: T) | Threw

  const PlaceholderPnr: string := "MOCK-PNR-123456"
  const MockHotelConf: string := "HOTEL-CONF-789012"
  const MockInsurance: InsuranceData := InsuranceData("INS-POL-345678", "Travel Insurance", "$50,000")

  /**
   * The store refuses a second row with the same primary key; the route
   * passes on whatever message it gives. This text stands for that message
   * and is illustrative: only its being a 500 failure matters.
   */
  const DuplicateKey: string := "duplicate key value violates unique constraint \"orders_pkey\""

  /** `Array(n)` accepts only a valid array length, an integer in [0, 2^32); anything else throws. */
  predicate ValidArrayLength(n: int)
  {
    0 <= n < 0x1_0000_0000
  }

  /**
   * The flight step (lines 54-80): nothing unless 'flight' is in the bundle;
   * then the request body's `Array(passengers)` or the fetch itself may
   * throw; otherwise the offer id when the reply is ok and carries one, and
   * the placeholder PNR in every other case.
   */
  function FlightPnr(req: GenerateRequest, flight: FlightReply): Step<Option<string>>
  {
    if "flight" !in req.bundle then Done(None)
    else if !ValidArrayLength(req.passengers) || flight.NetworkFailure? then Threw
    else if flight.ok && Truthy(flight.offerId) then Done(flight.offerId)
    else Done(Some(PlaceholderPnr))
  }

  /** The hotel step (lines 83-99): the provider's reply is discarded and its failure caught. */
  function HotelConfFor(bundle: seq<string>): Option<string>
  {
    if "hotel" in bundle then Some(MockHotelConf) else None
  }

  function InsuranceFor(bundle: seq<string>): Option<InsuranceData>
  {
    if "insurance" in bundle then Some(MockInsurance) else None
  }

  /** `expiry.setDate(expiry.getDate() + ttl_days)`, one day being MsPerDay. */
  function ExpiryAfter(now: int, days: int): int
  {
    now + days * MsPerDay
  }

  function TtlText(days: int): string
  {
    IntText(days) + " days"
  }

  function PdfUrl(id: string): string
  {
    "/api/orders/" + id + "/pdf"
  }

  /** The row the insert writes; the store stamps both timestamps with the current time. */
  function NewOrder(id: string, req: GenerateRequest, pnr: Option<string>, now: int): OrderRow
  {
    OrderRow(id, MockUser, pnr, HotelConfFor(req.bundle), Some(TtlText(req.ttlDays)),
             Some(ExpiryAfter(now, req.ttlDays)), Completed,
             OrderDetails(req.origin, req.dest, req.dates, req.passengers, req.visaType, req.bundle,
                          InsuranceFor(req.bundle), []),
             now, now)
  }

  /** The table after the request, and the reply. */
  function GenerateSpec(rows: seq<OrderRow>, body: Option<GenerateRequest>, authHeader: Option<string>,
                        flight: FlightReply, insert: InsertReply, now: int): (seq<OrderRow>, Reply<Generated>)
  {
    if body.None? then (rows, Failure(500, InternalError))
    else if !Truthy(authHeader) then (rows, Failure(401, Unauthorized))
    else
      var req := body.value;
      match FlightPnr(req, flight)
      case Threw => (rows, Failure(500, InternalError))
      case Done(pnr) =>
        match insert
        case Rejected(message) => (rows, Failure(500, message))
        case Assigned(id) =>
          if HasId(rows, id) then (rows, Failure(500, DuplicateKey))
          else
            (rows + [NewOrder(id, req, pnr, now)],
             Success(Generated(id, pnr, HotelConfFor(req.bundle), PdfUrl(id), [], ExpiryAfter(now, req.ttlDays))))
  }

  // ---------------------------------------------------------------------
  // Properties

  /** A request is served exactly when every step on the way succeeds. */
  lemma GenerateSucceedsIff(rows: seq<OrderRow>, body: Option<GenerateRequest>, authHeader: Option<string>,
                            flight: FlightReply, insert: InsertReply, now: int)
    ensures GenerateSpec(rows, body, authHeader, flight, insert, now).1.Success? <==>
      body.Some? && Truthy(authHeader)
      && ("flight" in body.value.bundle ==> ValidArrayLength(body.value.passengers) && flight.Replied?)
      && insert.Assigned? && !HasId(rows, insert.id)
  {
  }

  /** Every failure leaves the table as it was; a missing or empty authorization header is a 401. */
  lemma GenerateFailureWritesNothing(rows: seq<OrderRow>, body: Option<GenerateRequest>, authHeader: Option<string>,
                                     flight: FlightReply, insert: InsertReply, now: int)
    ensures GenerateSpec(rows, body, authHeader, flight, insert, now).1.Failure? ==>
      GenerateSpec(rows, body, authHeader, flight, insert, now).0 == rows
    ensures body.Some? && !Truthy(authHeader) ==>
      GenerateSpec(rows, body, authHeader, flight, insert, now) == (rows, Failure(401, Unauthorized))
    ensures GenerateSpec(rows, body, authHeader, flight, insert, now).1.Failure? ==>
      GenerateSpec(rows, body, authHeader, flight, insert, now).1.status in {401, 500}
  {
  }

  /**
   * A served request appends one row: a 'completed' order of the mock user,
   * expiring ttl_days after now, echoing the request in json_data with no
   * screenshots; the reply carries that row's id, confirmations and expiry.
   */
  lemma GenerateSuccessRow(rows: seq<OrderRow>, body: Option<GenerateRequest>, authHeader: Option<string>,
                           flight: FlightReply, insert: InsertReply, now: int)
    requires GenerateSpec(rows, body, authHeader, flight, insert, now).1.Success?
    ensures var (rows', reply) := GenerateSpec(rows, body, authHeader, flight, insert, now);
      var req := body.value;
      var g := reply.body;
      |rows'| == |rows| + 1 && rows'[..|rows|] == rows &&
      var row := rows'[|rows|];
      row.id == g.orderId == insert.id && !HasId(rows, row.id) &&
      row.pnr == g.pnr && row.hotelConf == g.hotelConf && row.expiry == Some(g.expiry) &&
      g.expiry == now + req.ttlDays * MsPerDay &&
      row.userId == MockUser && row.status == Completed && row.ttl == Some(IntText(req.ttlDays) + " days") &&
      row.jsonData.origin == req.origin && row.jsonData.dest == req.dest && row.jsonData.dates == req.dates &&
      row.jsonData.passengers == req.passengers && row.jsonData.visaType == req.visaType &&
      row.jsonData.bundle == req.bundle && row.jsonData.screenshots == [] &&
      g.pdfUrl == "/api/orders/" + g.orderId + "/pdf" && g.screenshots == []
  {
    var (rows', reply) := GenerateSpec(rows, body, authHeader, flight, insert, now);
    assert rows'[..|rows|] == rows;
  }

  /**
   * On success the PNR is present exactly when 'flight' was booked, and it is
   * the placeholder whenever the provider's reply was not ok; the hotel
   * confirmation and the insurance data are present exactly when booked.
   */
  lemma GenerateConfirmationsFollowBundle(rows: seq<OrderRow>, body: Option<GenerateRequest>, authHeader: Option<string>,
                                          flight: FlightReply, insert: InsertReply, now: int)
    requires GenerateSpec(rows, body, authHeader, flight, insert, now).1.Success?
    ensures var (rows', reply) := GenerateSpec(rows, body, authHeader, flight, insert, now);
      var bundle := body.value.bundle;
      var row := rows'[|rows'| - 1];
      (reply.body.pnr.Some? <==> "flight" in bundle) &&
      ("flight" in bundle && !flight.ok ==> reply.body.pnr == Some(PlaceholderPnr)) &&
      (reply.body.pnr.Some? ==> reply.body.pnr.value != "") &&
      (reply.body.hotelConf == if "hotel" in bundle then Some(MockHotelConf) else None) &&
      (row.jsonData.insuranceData.Some? <==> "insurance" in bundle)
  {
  }

  /** Entries of the bundle other than the three services change neither the reply nor the confirmations stored. */
  lemma GenerateIgnoresOtherEntries(rows: seq<OrderRow>, req: GenerateRequest, bundle2: seq<string>,
                                    authHeader: Option<string>, flight: FlightReply, insert: InsertReply, now: int)
    requires forall s :: s in ["flight", "hotel", "insurance"] ==> (s in req.bundle <==> s in bundle2)
    ensures var req2 := req.(bundle := bundle2);
      var (rows1, reply1) := GenerateSpec(rows, Some(req), authHeader, flight, insert, now);
      var (rows2, reply2) := GenerateSpec(rows, Some(req2), authHeader, flight, insert, now);
      reply1 == reply2 && |rows1| == |rows2| &&
      forall i :: 0 <= i < |rows1| ==> rows1[i].(jsonData := rows1[i].jsonData.(bundle := [])) == rows2[i].(jsonData := rows2[i].jsonData.(bundle := []))
  {
    assert "flight" in ["flight", "hotel", "insurance"];
    assert "hotel" in ["flight", "hotel", "insurance"];
    assert "insurance" in ["flight", "hotel", "insurance"];
  }

  /** Creation keeps the primary key unique. */
  lemma GenerateKeepsIdsUnique(rows: seq<OrderRow>, body: Option<GenerateRequest>, authHeader: Option<string>,
                               flight: FlightReply, insert: InsertReply, now: int)
    requires UniqueIds(rows)
    ensures UniqueIds(GenerateSpec(rows, body, authHeader, flight, insert, now).0)
  {
    var (rows', reply) := GenerateSpec(rows, body, authHeader, flight, insert, now);
    if reply.Success? {
      assert rows' == rows + [NewOrder(insert.id, body.value, reply.body.pnr, now)];
      assert forall i :: 0 <= i < |rows| ==> rows[i].id != insert.id;
    }
  }
}
