/**
 * The `orders` table row (src/lib/supabase.ts:31-43) and the reply shape the
 * route handlers share. Timestamps are integer milliseconds since the epoch;
 * `json_data` is given the shape the create handler writes into it.
 */
module Orders {
  import opened Js

  datatype InsuranceData = InsuranceData(policyNumber: string, coverage: string, amount: string)

  /** The `json_data` column as the create handler fills it. */
  datatype OrderDetails = OrderDetails(
    origin: string,
    dest: string,
    dates: string,
    passengers: int,
    visaType: string,
    bundle: seq<string>,
    insuranceData: Option<InsuranceData>,
    screenshots: seq<string>)

  datatype OrderRow = OrderRow(
    id: string,
    userId: string,
    pnr: Option<string>,
    hotelConf: Option<string>,
    ttl: Option<string>,
    expiry: Option<int>,
    status: string,
    jsonData: OrderDetails,
    createdAt: int,
    updatedAt: int)

  /** The status written at creation and the one written by the expiry sweep. */
  const Completed: string := "completed"
  const Cancelled: string := "cancelled"

  /** The user id the routes write and list orders under, while authentication is mocked. */
  const MockUser: string := "mock-user-id"

  /** The error text of a 401 reply. */
  const Unauthorized: string := "Unauthorized"

  /** An HTTP reply: the JSON body of a 200, or an error status with its message. */
  datatype Reply<T> = Success(body: T) | Failure(status: int, error: string)

  const InternalError: string := "Internal server error"

  /** `id` is the primary key: no two rows share one. */
  predicate UniqueIds(rows: seq<OrderRow>)
  {
    forall i, j :: 0 <= i < |rows| && 0 <= j < |rows| && rows[i].id == rows[j].id ==> i == j
  }

  predicate HasId(rows: seq<OrderRow>, id: string)
  {
    exists i :: 0 <= i < |rows| && rows[i].id == id
  }

  /** The row with the given id; with unique ids there is at most one. */
  function RowWithId(rows: seq<OrderRow>, id: string): (found: Option<OrderRow>)
    ensures found.Some? <==> HasId(rows, id)
    ensures found.Some? ==> found.value in rows && found.value.id == id
  {
    if rows == [] then None
    else if rows[0].id == id then Some(rows[0])
    else
      var rest := RowWithId(rows[1..], id);
      assert HasId(rows, id) <==> rows[0].id == id || HasId(rows[1..], id) by {
        if HasId(rows[1..], id) {
          var i :| 0 <= i < |rows[1..]| && rows[1..][i].id == id;
          assert rows[i + 1].id == id;
        }
        if HasId(rows, id) && rows[0].id != id {
          var i :| 0 <= i < |rows| && rows[i].id == id;
          assert rows[1..][i - 1].id == id;
        }
      }
      rest
  }

  /** With unique ids, the row found by id is the row at its index. */
  lemma RowWithIdAt(rows: seq<OrderRow>, i: nat)
    requires UniqueIds(rows) && i < |rows|
    ensures RowWithId(rows, rows[i].id) == Some(rows[i])
  {
    var found := RowWithId(rows, rows[i].id).value;
    var k :| 0 <= k < |rows| && rows[k] == found;
  }
}
