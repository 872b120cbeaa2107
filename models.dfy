/** The request and record models of models.py: the field constraints and
    defaults that Pydantic enforces when one of them is constructed. */
module Models {
  import opened Common

  /** Capacity data for one area as the API returns it. */
  datatype AreaCapacity = AreaCapacity(
    areaId: string,
    name: string,
    currentCount: int,
    maxCapacity: int,
    isOpen: bool,
    lastUpdated: Timestamp)

  /** `AreaCapacity(...)`: `current_count` must be >= 0 and `max_capacity` > 0,
      `is_open` defaults to True and `last_updated` to the current time. The
      `validate_current_count` validator hands every count back unchanged, so a
      count above `max_capacity` is accepted as it is. */
  function NewAreaCapacity(
    areaId: string, name: string, currentCount: int, maxCapacity: int,
    isOpen: Option<bool>, lastUpdated: Option<Timestamp>, now: Timestamp): (r: Option<AreaCapacity>)
    ensures r.Some? <==> currentCount >= 0 && maxCapacity > 0
    ensures r.Some? ==> r.value.currentCount == currentCount && r.value.maxCapacity == maxCapacity
    ensures r.Some? ==> r.value.areaId == areaId && r.value.name == name
    ensures r.Some? ==> r.value.isOpen == (isOpen != Some(false))
    ensures r.Some? ==> r.value.lastUpdated == (if lastUpdated.Some? then lastUpdated.value else now)
  {
    if currentCount >= 0 && maxCapacity > 0 then
      Some(AreaCapacity(areaId, name, currentCount, maxCapacity, isOpen.GetOr(true), lastUpdated.GetOr(now)))
    else
      None
  }

  /** Occupancy above the configured maximum is not rejected. */
  lemma CountAboveCapacityAccepted(areaId: string, name: string, currentCount: int, maxCapacity: int, now: Timestamp)
    requires 0 < maxCapacity < currentCount
    ensures NewAreaCapacity(areaId, name, currentCount, maxCapacity, None, None, now)
            == Some(AreaCapacity(areaId, name, currentCount, maxCapacity, true, now))
  {
  }

  /** A validated update request from an iPad. */
  datatype UpdateCapacityRequest = UpdateCapacityRequest(
    areaId: string,
    action: string,
    count: int,
    timestamp: Option<Timestamp>)

  /** Why Pydantic rejected a request (FastAPI answers 422). */
  datatype ValidationError = FieldMissing(field: string) | BadAction(action: string) | CountOutOfRange(count: int)

  /** `validate_action`: enter or exit in any letter case, normalised to lower case. */
  function ValidateAction(v: string): (r: Result<string, ValidationError>)
    ensures r.Ok? <==> Lower(v) == "enter" || Lower(v) == "exit"
    ensures r.Ok? ==> r.value == Lower(v)
    ensures r.Err? ==> r.error == BadAction(v)
  {
    var lowered := Lower(v);
    if lowered != "enter" && lowered != "exit" then Err(BadAction(v)) else Ok(lowered)
  }

  /** Constructing `UpdateCapacityRequest` from the request body's fields
      (None: the field was not sent). `area_id` and `action` are required,
      `count` defaults to 1 and must lie in [1, 10]. */
  function ParseUpdateCapacityRequest(
    areaId: Option<string>, action: Option<string>, count: Option<int>, timestamp: Option<Timestamp>)
    : (r: Result<UpdateCapacityRequest, ValidationError>)
    ensures r.Ok? <==>
      && areaId.Some? && action.Some? && ValidateAction(action.value).Ok?
      && (count.None? || 1 <= count.value <= 10)
    ensures r.Ok? ==>
      && r.value.areaId == areaId.value
      && r.value.action == Lower(action.value)
      && (r.value.action == "enter" || r.value.action == "exit")
      && r.value.count == (if count.Some? then count.value else 1)
      && 1 <= r.value.count <= 10
      && r.value.timestamp == timestamp
  {
    if areaId.None? then Err(FieldMissing("area_id"))
    else if action.None? then Err(FieldMissing("action"))
    else
      match ValidateAction(action.value)
      case Err(e) => Err(e)
      case Ok(normalised) =>
        var n := count.GetOr(1);
        if n < 1 || n > 10 then Err(CountOutOfRange(n))
        else Ok(UpdateCapacityRequest(areaId.value, normalised, n, timestamp))
  }

  /** Lower-casing the spellings of the two actions used below. */
  lemma LowerOfActions()
    ensures Lower("enter") == "enter" && Lower("ENTER") == "enter"
    ensures Lower("exit") == "exit" && Lower("Exit") == "exit"
    ensures Lower("invalid") != "enter" && Lower("invalid") != "exit"
  {
    assert Lower("enter") == "enter" by {
      assert forall i :: 0 <= i < 5 ==> Lower("enter")[i] == "enter"[i];
    }
    assert Lower("ENTER") == "enter" by {
      assert forall i :: 0 <= i < 5 ==> Lower("ENTER")[i] == "enter"[i];
    }
    assert Lower("exit") == "exit" by {
      assert forall i :: 0 <= i < 4 ==> Lower("exit")[i] == "exit"[i];
    }
    assert Lower("Exit") == "exit" by {
      assert forall i :: 0 <= i < 4 ==> Lower("Exit")[i] == "exit"[i];
    }
    assert |Lower("invalid")| == 7;
  }

  /** The cases test_api.py exercises: counts 20 and 0 and the action
      "invalid" are rejected, "enter" is accepted, and any letter case of a
      known action is accepted in lower case. */
  lemma RequestValidationExamples()
    ensures ParseUpdateCapacityRequest(Some("weight-room"), Some("enter"), Some(20), None).Err?
    ensures ParseUpdateCapacityRequest(Some("weight-room"), Some("enter"), Some(0), None).Err?
    ensures ParseUpdateCapacityRequest(Some("test-area"), Some("invalid"), None, None).Err?
    ensures ParseUpdateCapacityRequest(Some("test-area"), Some("enter"), None, None)
            == Ok(UpdateCapacityRequest("test-area", "enter", 1, None))
    ensures ValidateAction("ENTER") == Ok("enter") && ValidateAction("Exit") == Ok("exit")
  {
    LowerOfActions();
  }

  /** The event payload the Lambda accepts: `count` defaults to 1 with no
      range check, `source` defaults to "ipad". */
  datatype LambdaEvent = LambdaEvent(
    areaId: string,
    action: string,
    count: int,
    timestamp: Option<Timestamp>,
    source: string)

  /** Constructing `LambdaEvent`; only the types are checked. */
  function NewLambdaEvent(
    areaId: string, action: string, count: Option<int>, timestamp: Option<Timestamp>, source: Option<string>)
    : (e: LambdaEvent)
    ensures e.count == (if count.Some? then count.value else 1)
    ensures e.source == (if source.Some? then source.value else "ipad")
    ensures e.areaId == areaId && e.action == action && e.timestamp == timestamp
  {
    LambdaEvent(areaId, action, count.GetOr(1), timestamp, source.GetOr("ipad"))
  }

  /** A count outside [1, 10] is rejected by `UpdateCapacityRequest` but
      carried unchanged by `LambdaEvent`; the two defaults agree. */
  lemma CountRangeOnlyOnUpdateRequest(areaId: string, action: string, n: int)
    ensures (n < 1 || n > 10) ==>
      && ParseUpdateCapacityRequest(Some(areaId), Some(action), Some(n), None).Err?
      && NewLambdaEvent(areaId, action, Some(n), None, None).count == n
    ensures ParseUpdateCapacityRequest(Some(areaId), Some(action), None, None).Ok? ==>
      ParseUpdateCapacityRequest(Some(areaId), Some(action), None, None).value.count
        == NewLambdaEvent(areaId, action, None, None, None).count
  {
  }
}
