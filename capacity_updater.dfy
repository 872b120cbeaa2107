/** The Lambda function of capacity_updater.py: it validates an entry/exit
    event from an iPad and applies it to the area table it holds at module
    level. */
module CapacityUpdater {
  import opened Common
  import opened Store

  /** A JSON value in the request body, as far as the handler tells them
      apart: by the Python type `json.loads` gives it. */
  datatype JsonValue = JInt(i: int) | JBool(b: bool) | JString(s: string) | JNull | JFloat | JArray | JObject

  /** The DynamoDB type boto3 sends a decoded JSON value as (floats are
      refused before they are sent). */
  function DynamoType(v: JsonValue): (t: string)
    ensures |t| > 0
  {
    match v
    case JInt(_) => "N"
    case JBool(_) => "BOOL"
    case JString(_) => "S"
    case JNull => "NULL"
    case JFloat => "N"
    case JArray => "L"
    case JObject => "M"
  }

  /** The name of the Python type of a decoded JSON value. */
  function TypeName(v: JsonValue): (name: string)
    ensures |name| > 0
  {
    match v
    case JInt(_) => "int"
    case JBool(_) => "bool"
    case JString(_) => "str"
    case JNull => "NoneType"
    case JFloat => "float"
    case JArray => "list"
    case JObject => "dict"
  }

  /** The request body's fields (None: the key is absent). */
  datatype RequestBody = RequestBody(
    areaId: Option<string>,
    action: Option<JsonValue>,
    count: Option<JsonValue>,
    timestamp: Option<JsonValue>)

  datatype ResponseBody =
    | Accepted(areaId: string, action: string, count: JsonValue, newCount: int,
               timestamp: Timestamp, clientTimestamp: Option<JsonValue>)
    | Failed(error: string, timestamp: Timestamp)

  datatype LambdaResponse = LambdaResponse(statusCode: int, body: ResponseBody)

  /** The outcome of reading and validating the body before any write. */
  datatype Parsed =
    | Valid(areaId: string, action: string, count: int, countEcho: JsonValue)
    | Invalid(statusCode: int, message: string)

  /** `isinstance(count, int)` with its range: Python's booleans are ints, so
      `true` passes as 1 and `false` fails as 0. */
  function CountOf(v: JsonValue): (n: Option<int>)
    ensures n.Some? <==> v.JInt? || v.JBool?
    ensures v.JInt? ==> n == Some(v.i)
    ensures v.JBool? ==> n == Some(if v.b then 1 else 0)
  {
    match v
    case JInt(i) => Some(i)
    case JBool(b) => Some(if b then 1 else 0)
    case _ => None
  }

  /** Lines 67-81 of the handler: `action` defaults to "enter" and is
      lower-cased first (a non-string raises, answered 500); then a missing
      or empty `area_id`, an action other than enter/exit, and a count that
      is not an integer in [1, 10] (default 1) are each answered 400, in
      that order. */
  function ParseBody(body: RequestBody): (p: Parsed)
    ensures p.Invalid? ==> p.statusCode == 400 || p.statusCode == 500
    ensures p.Invalid? && p.statusCode == 500 <==> body.action.Some? && !body.action.value.JString?
    ensures p.Valid? <==>
      && (body.action.None? || body.action.value.JString?)
      && body.areaId.Some? && body.areaId.value != ""
      && (body.action.None? || Lower(body.action.value.s) in {"enter", "exit"})
      && (body.count.None? || (CountOf(body.count.value).Some? && 1 <= CountOf(body.count.value).value <= 10))
    ensures p.Valid? ==>
      && p.areaId == body.areaId.value
      && p.action == (if body.action.None? then "enter" else Lower(body.action.value.s))
      && (p.action == "enter" || p.action == "exit")
      && 1 <= p.count <= 10
      && p.countEcho == (if body.count.None? then JInt(1) else body.count.value)
      && Some(p.count) == CountOf(p.countEcho)
    ensures p.Invalid? && p.statusCode == 500 ==>
      p.message == "Internal server error: '" + TypeName(body.action.value) + "' object has no attribute 'lower'"
    ensures p.Invalid? && p.statusCode == 400 ==>
      p.message ==
        if body.areaId.None? || body.areaId.value == "" then "Missing required parameter: area_id"
        else if body.action.Some? && body.action.value.JString? && Lower(body.action.value.s) !in {"enter", "exit"}
        then "Action must be 'enter' or 'exit'"
        else "Count must be an integer between 1 and 10"
  {
    var rawAction := body.action.GetOr(JString("enter"));
    if !rawAction.JString? then
      Invalid(500, "Internal server error: '" + TypeName(rawAction) + "' object has no attribute 'lower'")
    else
      var action := Lower(rawAction.s);
      var countEcho := body.count.GetOr(JInt(1));
      if body.areaId.None? || body.areaId.value == "" then
        Invalid(400, "Missing required parameter: area_id")
      else if action != "enter" && action != "exit" then
        Invalid(400, "Action must be 'enter' or 'exit'")
      else
        match CountOf(countEcho)
        case None => Invalid(400, "Count must be an integer between 1 and 10")
        case Some(n) =>
          if n < 1 || n > 10 then Invalid(400, "Count must be an integer between 1 and 10")
          else Valid(body.areaId.value, action, n, countEcho)
  }

  /** `count if action == 'enter' else -count` as DynamoDB receives it.
      Negating a boolean gives an int, but `True` itself reaches DynamoDB as
      a BOOL, which the update's `+` rejects; any other non-number fails
      either in the negation or in DynamoDB. None: the update raises. */
  function SignedIncrement(action: string, count: JsonValue): (inc: Option<int>)
    ensures inc.None? <==> !(count.JInt? || count.JBool?) || (action == "enter" && count.JBool?)
    ensures inc.Some? ==> inc.value == (if action == "enter" then CountOf(count).value else -CountOf(count).value)
  {
    match count
    case JInt(i) => Some(if action == "enter" then i else -i)
    case JBool(b) => if action == "enter" then None else Some(if b then -1 else 0)
    case _ => None
  }

  /** The item after the Lambda's `update_capacity` with a signed increment:
      one write adds it to the count (a missing count reading as 0), stamps
      `last_updated` and adds 1 to `update_count`; if the count went
      negative a second write sets only `current_count` to 0 and leaves the
      first write's `last_updated`. */
  function AfterLambdaUpdate(before: Item, increment: int, now: Timestamp): (after: Item)
    ensures after.currentCount == Some(Clamp(StoredCount(before) + increment))
    ensures after.lastUpdated == Some(now)
    ensures after.updateCount == Some(before.updateCount.GetOr(0) + 1)
    ensures after.areaId == before.areaId && after.name == before.name && after.maxCapacity == before.maxCapacity
    ensures after.isOpen == before.isOpen && after.createdAt == before.createdAt
  {
    var written := before.(
      currentCount := Some(StoredCount(before) + increment),
      lastUpdated := Some(now),
      updateCount := Some(before.updateCount.GetOr(0) + 1));
    if written.currentCount.value < 0 then written.(currentCount := Some(0)) else written
  }

  /** A number as the handler holds it for `new_count`: a Python int, or a
      number read back through the boto3 Table resource, which hands every
      DynamoDB number over as a `decimal.Decimal`. */
  datatype PyNumber = PyInt(i: int) | PyDecimal(d: int)

  /** The `TypeError` text of `json.dumps` on a `Decimal`. */
  const DECIMAL_NOT_SERIALIZABLE: string := "Object of type Decimal is not JSON serializable"

  /** `json.dumps` on a number: the default encoder writes out an int and
      raises `TypeError` on a `Decimal`. */
  function DumpNumber(n: PyNumber): (r: Result<int, string>)
    ensures r.Ok? <==> n.PyInt?
    ensures r.Ok? ==> r.value == n.i
    ensures r.Err? ==> r.error == DECIMAL_NOT_SERIALIZABLE
  {
    match n
    case PyInt(i) => Ok(i)
    case PyDecimal(_) => Err(DECIMAL_NOT_SERIALIZABLE)
  }

  /** The success response of `lambda_handler`. Its body goes through
      `json.dumps`, so a `new_count` that does not serialize raises there and
      the handler's `except` answers 500 instead. The other fields are
      strings or values `json.loads` produced, which always serialize. */
  function SuccessResponse(areaId: string, action: string, countEcho: JsonValue, newCount: PyNumber,
                           now: Timestamp, clientTimestamp: Option<JsonValue>): (resp: LambdaResponse)
    ensures resp.statusCode == 200 <==> newCount.PyInt?
    ensures newCount.PyInt? ==>
      resp.body == Accepted(areaId, action, countEcho, newCount.i, now, clientTimestamp)
    ensures newCount.PyDecimal? ==>
      resp == ErrorResponse(500, "Internal server error: " + DECIMAL_NOT_SERIALIZABLE, now)
  {
    match DumpNumber(newCount)
    case Ok(n) => LambdaResponse(200, Accepted(areaId, action, countEcho, n, now, clientTimestamp))
    case Err(e) => ErrorResponse(500, "Internal server error: " + e, now)
  }

  /** `create_error_response`. */
  function ErrorResponse(statusCode: int, message: string, now: Timestamp): (resp: LambdaResponse)
    ensures resp.statusCode == statusCode && resp.body.Failed? && resp.body.error == message
  {
    LambdaResponse(statusCode, Failed(message, now))
  }

  /** The module-level state of capacity_updater.py: the table handle. */
  class Updater {
    const table: Table

    constructor (table: Table)
      ensures this.table == table
    {
      this.table := table;
    }

    /** `update_capacity`: +count for "enter", -count for any other action,
        clamped at 0. An increment that cannot be added raises before any
        write: a float is refused by boto3's serializer, a non-number is
        refused by the negation of an exit or by DynamoDB's `+` on an entry.
        An absent area raises too, since the write leaves no item to
        return. */
    method UpdateCapacity(areaId: string, action: string, count: JsonValue, now: Timestamp) returns (r: Reply<Item>)
      modifies table
      ensures r.NotFound? == false
      ensures AreaKey(areaId) !in old(table.items) || SignedIncrement(action, count).None? ==>
        r.Raised? && table.items == old(table.items)
      ensures AreaKey(areaId) in old(table.items) && SignedIncrement(action, count).Some? ==>
        && table.items == old(table.items)[AreaKey(areaId) :=
             AfterLambdaUpdate(old(table.items)[AreaKey(areaId)], SignedIncrement(action, count).value, now)]
        && r == Done(table.items[AreaKey(areaId)])
      ensures r.Done? ==> r.value.currentCount.Some? && r.value.currentCount.value >= 0
      ensures CountsNonNegative(old(table.items)) ==> CountsNonNegative(table.items)
    {
      var key := AreaKey(areaId);
      var increment := SignedIncrement(action, count);
      if increment.None? {
        if count.JFloat? {
          return Raised("Float types are not supported. Use Decimal types instead.");
        } else if action == "enter" {
          return Raised("An error occurred (ValidationException) when calling the UpdateItem operation: "
                        + "Invalid UpdateExpression: Incorrect operand type for operator or function; "
                        + "operator or function: +, operand type: " + DynamoType(count));
        }
        return Raised("bad operand type for unary -: '" + TypeName(count) + "'");
      }
      if key !in table.items {
        return Raised("'Attributes'");
      }
      var before := table.items[key];
      var updated := before.(
        currentCount := Some(StoredCount(before) + increment.value),
        lastUpdated := Some(now),
        updateCount := Some(before.updateCount.GetOr(0) + 1));
      table.items := table.items[key := updated];
      if updated.currentCount.value < 0 {
        updated := updated.(currentCount := Some(0));
        table.items := table.items[key := updated];
      }
      r := Done(updated);
    }

    /** `lambda_handler` on an already decoded body, as written: validation
        answers 400 (or 500) before any write, and a failed update 500.
        After a successful update `new_count` is the stored count exactly as
        boto3 returns it, a `Decimal`, so `json.dumps` raises and every valid
        event is answered 500 after its write has been made. */
    method LambdaHandlerAsWritten(body: RequestBody, now: Timestamp) returns (resp: LambdaResponse)
      modifies table
      ensures ParseBody(body).Invalid? ==>
        && table.items == old(table.items)
        && resp == ErrorResponse(ParseBody(body).statusCode, ParseBody(body).message, now)
      ensures resp.statusCode != 200
      ensures ParseBody(body).Valid? ==> resp.statusCode == 500
      ensures
        var p := ParseBody(body);
        p.Valid? && AreaKey(p.areaId) in old(table.items) && !(p.action == "enter" && p.countEcho.JBool?) ==>
          var increment := if p.action == "enter" then p.count else -p.count;
          && table.items == old(table.items)[AreaKey(p.areaId) := AfterLambdaUpdate(old(table.items)[AreaKey(p.areaId)], increment, now)]
          && resp == ErrorResponse(500, "Internal server error: " + DECIMAL_NOT_SERIALIZABLE, now)
      ensures
        var p := ParseBody(body);
        p.Valid? && (AreaKey(p.areaId) !in old(table.items) || (p.action == "enter" && p.countEcho.JBool?)) ==>
          table.items == old(table.items)
      ensures CountsNonNegative(old(table.items)) ==> CountsNonNegative(table.items)
    {
      var parsed := ParseBody(body);
      if parsed.Invalid? {
        return ErrorResponse(parsed.statusCode, parsed.message, now);
      }
      var result := UpdateCapacity(parsed.areaId, parsed.action, parsed.countEcho, now);
      if !result.Done? {
        return ErrorResponse(500, "Internal server error: " + result.reason, now);
      }
      resp := SuccessResponse(parsed.areaId, parsed.action, parsed.countEcho,
                              PyDecimal(result.value.currentCount.value), now, body.timestamp);
    }

    /** `lambda_handler` as intended: the same steps, with `new_count`
        converted to an int before `json.dumps`, so a successful update is
        answered 200 with the stored count. A count of `true` passes
        validation as 1 but makes an entry's update fail, which is answered
        500. */
    method LambdaHandler(body: RequestBody, now: Timestamp) returns (resp: LambdaResponse)
      modifies table
      ensures ParseBody(body).Invalid? ==>
        && table.items == old(table.items)
        && resp == ErrorResponse(ParseBody(body).statusCode, ParseBody(body).message, now)
      ensures resp.statusCode == 200 <==>
        && ParseBody(body).Valid? && AreaKey(ParseBody(body).areaId) in old(table.items)
        && !(ParseBody(body).action == "enter" && ParseBody(body).countEcho.JBool?)
      ensures ParseBody(body).Valid? && resp.statusCode != 200 ==>
        table.items == old(table.items) && resp.statusCode == 500
      ensures resp.statusCode == 200 ==>
        var p := ParseBody(body);
        var increment := if p.action == "enter" then p.count else -p.count;
        && table.items == old(table.items)[AreaKey(p.areaId) := AfterLambdaUpdate(old(table.items)[AreaKey(p.areaId)], increment, now)]
        && resp.body == Accepted(p.areaId, p.action, p.countEcho, table.items[AreaKey(p.areaId)].currentCount.value, now, body.timestamp)
        && resp.body.newCount >= 0
      ensures CountsNonNegative(old(table.items)) ==> CountsNonNegative(table.items)
    {
      var parsed := ParseBody(body);
      if parsed.Invalid? {
        return ErrorResponse(parsed.statusCode, parsed.message, now);
      }
      var result := UpdateCapacity(parsed.areaId, parsed.action, parsed.countEcho, now);
      if !result.Done? {
        return ErrorResponse(500, "Internal server error: " + result.reason, now);
      }
      resp := SuccessResponse(parsed.areaId, parsed.action, parsed.countEcho,
                              PyInt(result.value.currentCount.value), now, body.timestamp);
    }

    /** `get_current_capacity`: the stored item, or None (the empty record)
        when the area has none. */
    function GetCurrentCapacity(areaId: string): (r: Option<Item>)
      reads table
      ensures r.None? <==> AreaKey(areaId) !in table.items
      ensures r.Some? ==> r.value == table.items[AreaKey(areaId)]
    {
      if AreaKey(areaId) in table.items then Some(table.items[AreaKey(areaId)]) else None
    }
  }

  /** The discrepancy of the handler as written: on the same successful
      update the `Decimal` count read back from the table makes the answer
      500, where the count converted to an int is answered 200 with it. */
  lemma StoredCountBreaksResponse(areaId: string, action: string, countEcho: JsonValue, stored: nat,
                                  now: Timestamp, clientTimestamp: Option<JsonValue>)
    ensures SuccessResponse(areaId, action, countEcho, PyDecimal(stored), now, clientTimestamp).statusCode == 500
    ensures SuccessResponse(areaId, action, countEcho, PyInt(stored), now, clientTimestamp)
            == LambdaResponse(200, Accepted(areaId, action, countEcho, stored, now, clientTimestamp))
  {
  }

  /** The item after a run of Lambda updates with the given signed
      increments, each stamped with its own time. */
  function LambdaRun(before: Item, increments: seq<int>, stamps: seq<Timestamp>): (after: Item)
    requires |stamps| == |increments|
    decreases |increments|
  {
    if increments == [] then before
    else
      var n := |increments| - 1;
      AfterLambdaUpdate(LambdaRun(before, increments[..n], stamps[..n]), increments[n], stamps[n])
  }

  /** Successive Lambda updates follow the clamped counter: the count after
      a run is `Replay` of the signed increments. */
  lemma {:induction false} LambdaRunReplay(before: Item, increments: seq<int>, stamps: seq<Timestamp>)
    requires |stamps| == |increments| && StoredCount(before) >= 0
    ensures StoredCount(LambdaRun(before, increments, stamps)) == Replay(StoredCount(before), increments)
    decreases |increments|
  {
    if increments != [] {
      var n := |increments| - 1;
      LambdaRunReplay(before, increments[..n], stamps[..n]);
    }
  }

  /** An entry of `n` people followed by an exit of `n` restores the count. */
  lemma LambdaEnterThenExitRestores(before: Item, n: nat, enterStamp: Timestamp, exitStamp: Timestamp)
    requires StoredCount(before) >= 0
    ensures StoredCount(LambdaRun(before,
                                  [SignedIncrement("enter", JInt(n)).value, SignedIncrement("exit", JInt(n)).value],
                                  [enterStamp, exitStamp]))
            == StoredCount(before)
  {
    var increments := [SignedIncrement("enter", JInt(n)).value, SignedIncrement("exit", JInt(n)).value];
    assert increments == [n as int, -(n as int)];
    LambdaRunReplay(before, increments, [enterStamp, exitStamp]);
    EnterThenExitRestores(StoredCount(before), n);
  }

  /** `update_count` counts the updates applied to an item: each adds 1
      whatever its increment and whether or not the clamp fired. */
  lemma {:induction false} UpdateCountCountsUpdates(before: Item, increments: seq<int>, stamps: seq<Timestamp>)
    requires |stamps| == |increments|
    ensures LambdaRun(before, increments, stamps).updateCount.GetOr(0) == before.updateCount.GetOr(0) + |increments|
    ensures increments != [] ==> LambdaRun(before, increments, stamps).updateCount.Some?
    decreases |increments|
  {
    if increments != [] {
      var n := |increments| - 1;
      UpdateCountCountsUpdates(before, increments[..n], stamps[..n]);
      var previous := LambdaRun(before, increments[..n], stamps[..n]);
      assert previous.updateCount.GetOr(0) == before.updateCount.GetOr(0) + n;
    }
  }

  /** The examples of the handler's documentation: a missing `area_id`, the
      action "jump" and a count of 11 are rejected; a body holding only the
      area is an entry of one person; "EXIT" is an exit; a count of `true`
      is accepted as one person. */
  lemma ParseBodyExamples()
    ensures ParseBody(RequestBody(None, Some(JString("enter")), None, None)).Invalid?
    ensures ParseBody(RequestBody(Some("weight-room"), Some(JString("jump")), None, None))
            == Invalid(400, "Action must be 'enter' or 'exit'")
    ensures ParseBody(RequestBody(Some("weight-room"), Some(JString("enter")), Some(JInt(11)), None)).Invalid?
    ensures ParseBody(RequestBody(Some("weight-room"), None, None, None)) == Valid("weight-room", "enter", 1, JInt(1))
    ensures ParseBody(RequestBody(Some("pool"), Some(JString("EXIT")), Some(JInt(3)), None)) == Valid("pool", "exit", 3, JInt(3))
    ensures ParseBody(RequestBody(Some("pool"), None, Some(JBool(true)), None)) == Valid("pool", "enter", 1, JBool(true))
  {
    assert Lower("enter") == "enter" by {
      assert forall i :: 0 <= i < 5 ==> Lower("enter")[i] == "enter"[i];
    }
    assert Lower("EXIT") == "exit" by {
      assert forall i :: 0 <= i < 4 ==> Lower("EXIT")[i] == "exit"[i];
    }
    assert |Lower("jump")| == 4;
  }
}
