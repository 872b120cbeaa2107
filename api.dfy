/** The FastAPI endpoints of main.py over a `DynamoDBManager`: each handler
    turns the manager's reply into an HTTP status and body. The handlers'
    clock reads are the caller's `now` (the response timestamp and the
    stored `last_updated` of one request share it); the clamp write of an
    update stamps `clampNow`. */
module Api {
  import opened Common
  import opened Store
  import opened Models
  import opened Database
  import opened InitDatabase

  /** `HealthResponse`. */
  datatype HealthResponse = HealthResponse(status: string, timestamp: Timestamp, databaseConnected: bool)

  /** The JSON body of a response. */
  datatype ApiBody =
    | Capacity(timestamp: Timestamp, areas: seq<AreaCapacity>)        // CapacityResponse
    | Area(area: AreaCapacity)                                        // AreaCapacity
    | Updated(areaId: string, action: string, newCount: int, timestamp: Timestamp)
    | Reset(areaId: string, newCount: int, timestamp: Timestamp)
    | Detail(detail: string)                                          // HTTPException

  datatype HttpResponse = HttpResponse(statusCode: int, body: ApiBody)

  /** The body main.py's handler for status 404 sends in place of the
      raised exception's detail. */
  const NOT_FOUND_DETAIL: string := "Resource not found"

  /** The response to `raise HTTPException(status_code, detail)`: the
      detail, except that the handler registered for 404 replaces it. (The
      one registered for 500 only sees exceptions the handlers let escape,
      and they let none escape.) */
  function HttpError(statusCode: int, detail: string): (resp: HttpResponse)
    ensures resp.statusCode == statusCode && resp.body.Detail?
    ensures resp.body.detail == (if statusCode == 404 then NOT_FOUND_DETAIL else detail)
  {
    HttpResponse(statusCode, Detail(if statusCode == 404 then NOT_FOUND_DETAIL else detail))
  }

  /** `health_check`: "healthy" when `verify_connection` reports the table
      reachable, "degraded" otherwise. `verify_connection` never raises, so
      the "unhealthy" branch cannot be taken. */
  function HealthCheck(db: DynamoDBManager, statusReadable: bool, now: Timestamp): (h: HealthResponse)
    reads db
    ensures h.databaseConnected <==> db.table != null && statusReadable
    ensures h.status == "healthy" <==> h.databaseConnected
    ensures h.status == "healthy" || h.status == "degraded"
    ensures h.timestamp == now
  {
    var connected := db.VerifyConnection(statusReadable);
    HealthResponse(if connected then "healthy" else "degraded", now, connected)
  }

  /** `get_mock_capacity_data`: six open areas, every one a valid
      `AreaCapacity` with fewer people than its capacity. */
  function MockCapacityData(now: Timestamp): (areas: seq<AreaCapacity>)
    ensures |areas| == 6
    ensures forall i :: 0 <= i < |areas| ==>
      && areas[i].isOpen && areas[i].lastUpdated == now
      && 0 <= areas[i].currentCount < areas[i].maxCapacity
      && NewAreaCapacity(areas[i].areaId, areas[i].name, areas[i].currentCount, areas[i].maxCapacity,
                         Some(true), Some(now), now) == Some(areas[i])
  {
    [
      AreaCapacity("weight-room", "Weight Room", 45, 100, true, now),
      AreaCapacity("cardio", "Cardio Area", 32, 60, true, now),
      AreaCapacity("track", "Indoor Track", 18, 50, true, now),
      AreaCapacity("pool", "Swimming Pool", 12, 40, true, now),
      AreaCapacity("basketball", "Basketball Courts", 24, 30, true, now),
      AreaCapacity("climbing", "Climbing Wall", 8, 15, true, now)
    ]
  }

  /** The area is one of the configured areas, with the configured name and
      capacity. */
  predicate IsConfigured(area: AreaCapacity) {
    exists j :: 0 <= j < |INITIAL_AREAS| && INITIAL_AREAS[j] == AreaConfig(area.areaId, area.name, area.maxCapacity)
  }

  /** Every mock area is a configured area with the configured name and
      capacity; the configured racquetball courts and group fitness studio
      have no mock entry. */
  lemma MockAreasAreConfigured(now: Timestamp)
    ensures forall area :: area in MockCapacityData(now) ==>
      IsConfigured(area) && area.areaId != "racquetball" && area.areaId != "group-fitness"
  {
    var mock := MockCapacityData(now);
    forall i | 0 <= i < |mock|
      ensures IsConfigured(mock[i]) && mock[i].areaId != "racquetball" && mock[i].areaId != "group-fitness"
    {
      var j := if i < 5 then i else 6;
      assert INITIAL_AREAS[j] == AreaConfig(mock[i].areaId, mock[i].name, mock[i].maxCapacity);
      assert mock[i].areaId[0] != 'r' && mock[i].areaId[0] != 'g';
    }
  }

  /** `get_all_capacity`: 200 with every convertible METADATA item, or with
      the mock data when there is none (including when the table handle is
      missing). */
  method GetAllCapacity(db: DynamoDBManager, now: Timestamp) returns (resp: HttpResponse, ghost keys: seq<Key>)
    ensures resp.statusCode == 200 && resp.body.Capacity? && resp.body.timestamp == now
    ensures resp.body.areas != []
    ensures db.table == null ==> resp.body.areas == MockCapacityData(now)
    ensures db.table != null && (forall k :: !Listed(db.table.items, k, now)) ==>
      resp.body.areas == MockCapacityData(now)
    ensures db.table != null && (exists k :: Listed(db.table.items, k, now)) ==>
      ScanResult(db.table.items, now, resp.body.areas, keys)
  {
    var areas;
    areas, keys := db.GetAllAreas(now);
    if db.table != null && keys != [] {
      assert Listed(db.table.items, keys[0], now);
    }
    if areas == [] {
      if db.table != null {
        assert forall k :: !Listed(db.table.items, k, now) by {
          forall k ensures !Listed(db.table.items, k, now) {
            assert k !in keys;
          }
        }
      }
      areas := MockCapacityData(now);
    }
    resp := HttpResponse(200, Capacity(now, areas));
  }

  /** `get_area_capacity`: 404 when the manager finds no item, 500 when the
      item does not convert, the area otherwise. */
  function GetAreaCapacity(db: DynamoDBManager, areaId: string, now: Timestamp): (resp: HttpResponse)
    reads db, db.table
    ensures resp.statusCode in {200, 404, 500}
    ensures resp.statusCode == 404 <==> db.table == null || AreaKey(areaId) !in db.table.items
    ensures resp.statusCode == 404 ==> resp.body == Detail(NOT_FOUND_DETAIL)
    ensures resp.statusCode == 200 <==> db.GetArea(areaId, now).Done?
    ensures resp.statusCode == 200 ==>
      && db.table != null && AreaKey(areaId) in db.table.items
      && resp.body.Area? && ItemToArea(db.table.items[AreaKey(areaId)], now) == Some(resp.body.area)
  {
    match db.GetArea(areaId, now)
    case NotFound => HttpError(404, "Area '" + areaId + "' not found")
    case Raised(e) => HttpError(500, "Failed to fetch area capacity: " + e)
    case Done(area) => HttpResponse(200, Area(area))
  }

  /** `update_capacity`: an action other than "enter" or "exit" is answered
      400 without a write; otherwise the manager applies the action. Only
      the area and the action are passed on, so the request's `count` has
      no effect: every update moves the count by one. */
  method UpdateCapacity(db: DynamoDBManager, request: UpdateCapacityRequest, now: Timestamp, clampNow: Timestamp)
    returns (resp: HttpResponse)
    modifies db.table
    ensures resp.statusCode in {200, 400, 404, 500}
    ensures resp.statusCode == 400 <==> request.action != "enter" && request.action != "exit"
    ensures resp.statusCode == 400 ==> db.table == null || db.table.items == old(db.table.items)
    ensures resp.statusCode != 400 ==>
      (resp.statusCode == 404 <==> db.table == null || AreaKey(request.areaId) !in old(db.table.items))
    ensures resp.statusCode == 404 ==> resp.body == Detail(NOT_FOUND_DETAIL)
    ensures resp.statusCode == 404 ==> db.table == null || db.table.items == old(db.table.items)
    ensures resp.statusCode != 400 && db.table != null && AreaKey(request.areaId) in old(db.table.items) ==>
      db.table.items == old(db.table.items)[AreaKey(request.areaId) :=
        AfterUpdate(old(db.table.items)[AreaKey(request.areaId)], request.action, now, clampNow)]
    ensures resp.statusCode == 200 <==>
      && (request.action == "enter" || request.action == "exit")
      && db.table != null && AreaKey(request.areaId) in old(db.table.items)
      && ItemToArea(UpdateReturned(old(db.table.items)[AreaKey(request.areaId)], request.action, now), now).Some?
    ensures resp.statusCode == 200 ==>
      && db.table != null && AreaKey(request.areaId) in db.table.items
      && resp.body == Updated(request.areaId, request.action,
                              db.table.items[AreaKey(request.areaId)].currentCount.value, now)
      && resp.body.newCount >= 0
  {
    if request.action != "enter" && request.action != "exit" {
      return HttpError(400, "Action must be 'enter' or 'exit'");
    }
    var r := db.UpdateCapacity(request.areaId, request.action, now, clampNow);
    match r
    case NotFound =>
      resp := HttpError(404, "Area '" + request.areaId + "' not found");
    case Raised(e) =>
      resp := HttpError(500, "Failed to update capacity: " + e);
    case Done(area) =>
      resp := HttpResponse(200, Updated(request.areaId, request.action, area.currentCount, now));
  }

  /** `reset_area_capacity` with the query parameter `count` (default 0):
      the manager stores `max(0, count)`, but the response echoes the
      requested count, so a negative reset reports a count that was not
      stored. */
  method ResetAreaCapacity(db: DynamoDBManager, areaId: string, count: Option<int>, now: Timestamp)
    returns (resp: HttpResponse)
    modifies db.table
    ensures resp.statusCode in {200, 404, 500}
    ensures resp.statusCode == 404 <==> db.table == null || AreaKey(areaId) !in old(db.table.items)
    ensures resp.statusCode == 404 ==> resp.body == Detail(NOT_FOUND_DETAIL)
    ensures resp.statusCode == 404 ==> db.table == null || db.table.items == old(db.table.items)
    ensures db.table != null && AreaKey(areaId) in old(db.table.items) ==>
      db.table.items == old(db.table.items)[AreaKey(areaId) :=
        WithCount(old(db.table.items)[AreaKey(areaId)], Clamp(count.GetOr(0)), now)]
    ensures resp.statusCode == 200 <==>
      && db.table != null && AreaKey(areaId) in old(db.table.items)
      && ItemToArea(WithCount(old(db.table.items)[AreaKey(areaId)], Clamp(count.GetOr(0)), now), now).Some?
    ensures resp.statusCode == 200 ==> resp.body == Reset(areaId, count.GetOr(0), now)
    ensures resp.statusCode == 200 && count.GetOr(0) < 0 ==>
      db.table != null && db.table.items[AreaKey(areaId)].currentCount == Some(0) && resp.body.newCount < 0
  {
    var n := count.GetOr(0);
    var r := db.SetCapacity(areaId, n, now);
    match r
    case NotFound =>
      resp := HttpError(404, "Area '" + areaId + "' not found");
    case Raised(e) =>
      resp := HttpError(500, "Failed to reset capacity: " + e);
    case Done(area) =>
      resp := HttpResponse(200, Reset(areaId, n, now));
  }
}
