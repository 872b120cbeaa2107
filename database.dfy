/** `DynamoDBManager` of database.py: the FastAPI backend's access to the
    area table. The table handle may be absent (the boto3 resource could not
    be created); every operation then does nothing. */
module Database {
  import opened Common
  import opened Store
  import opened Models

  /** Converting a stored item into `AreaCapacity`: a missing `area_id`,
      `name`, `current_count` or `max_capacity` raises, and so does a model
      constraint; `is_open` defaults to True and `last_updated` to `now`. */
  function ItemToArea(item: Item, now: Timestamp): (r: Option<AreaCapacity>)
    ensures r.Some? <==>
      && item.areaId.Some? && item.name.Some? && item.currentCount.Some? && item.maxCapacity.Some?
      && item.currentCount.value >= 0 && item.maxCapacity.value > 0
    ensures r.Some? ==>
      && r.value.areaId == item.areaId.value && r.value.name == item.name.value
      && r.value.currentCount == item.currentCount.value && r.value.maxCapacity == item.maxCapacity.value
      && r.value.isOpen == (item.isOpen != Some(false))
      && r.value.lastUpdated == (if item.lastUpdated.Some? then item.lastUpdated.value else now)
  {
    if item.areaId.Some? && item.name.Some? && item.currentCount.Some? && item.maxCapacity.Some? then
      NewAreaCapacity(item.areaId.value, item.name.value, item.currentCount.value, item.maxCapacity.value,
                      Some(item.isOpen.GetOr(true)), Some(item.lastUpdated.GetOr(now)), now)
    else
      None
  }

  /** The conversion as the caller sees it: a failed conversion is an exception. */
  function Converted(item: Item, now: Timestamp): (r: Reply<AreaCapacity>)
    ensures r.NotFound? == false
    ensures r.Done? <==> ItemToArea(item, now).Some?
    ensures r.Done? ==> r.value == ItemToArea(item, now).value
  {
    match ItemToArea(item, now)
    case Some(area) => Done(area)
    case None => Raised("item does not convert to AreaCapacity")
  }

  /** A stored METADATA item that `get_all_areas` reports. */
  ghost predicate Listed(t: map<Key, Item>, k: Key, now: Timestamp) {
    k in t && k.sk == METADATA && ItemToArea(t[k], now).Some?
  }

  /** `areas` lists every convertible METADATA item of `t` exactly once, in
      the scan order `keys`. */
  ghost predicate ScanResult(t: map<Key, Item>, now: Timestamp, areas: seq<AreaCapacity>, keys: seq<Key>) {
    && |keys| == |areas|
    && (forall i, j :: 0 <= i < j < |keys| ==> keys[i] != keys[j])
    && (forall k :: k in keys <==> Listed(t, k, now))
    && (forall i :: 0 <= i < |keys| ==> keys[i] in t && ItemToArea(t[keys[i]], now) == Some(areas[i]))
  }

  /** +1 for exactly "enter", -1 for any other action string. */
  function Increment(action: string): (d: int)
    ensures d == 1 <==> action == "enter"
    ensures d == -1 <==> action != "enter"
  {
    if action == "enter" then 1 else -1
  }

  /** The item after `update_capacity`: the atomic increment stamped `now`,
      then, if the count went negative, `set_capacity(area_id, 0)` stamped
      `clampNow`. */
  function AfterUpdate(before: Item, action: string, now: Timestamp, clampNow: Timestamp): (after: Item)
    ensures after.currentCount == Some(Clamp(StoredCount(before) + Increment(action)))
    ensures after.lastUpdated == Some(if StoredCount(before) + Increment(action) < 0 then clampNow else now)
    ensures SameAttributes(before, after)
  {
    var incremented := WithCount(before, StoredCount(before) + Increment(action), now);
    if incremented.currentCount.value < 0 then WithCount(incremented, 0, clampNow) else incremented
  }

  /** The record `update_capacity` hands back: the attributes of its first
      write with the count replaced by the clamped one, so when the clamp
      fired its `last_updated` is the first write's, not the stored one. */
  function UpdateReturned(before: Item, action: string, now: Timestamp): (returned: Item)
    ensures returned.currentCount == Some(Clamp(StoredCount(before) + Increment(action)))
    ensures returned.lastUpdated == Some(now)
    ensures SameAttributes(before, returned)
  {
    var incremented := WithCount(before, StoredCount(before) + Increment(action), now);
    if incremented.currentCount.value < 0 then incremented.(currentCount := Some(0)) else incremented
  }

  class DynamoDBManager {
    var table: Table?

    /** The manager over an existing table handle, or over none when the
        boto3 resource could not be created. */
    constructor (table: Table?)
      ensures this.table == table
    {
      this.table := table;
    }

    /** `verify_connection`: True exactly when there is a table handle and
        reading its status succeeded; a failure is reported as False, never
        raised. */
    function VerifyConnection(statusReadable: bool): (ok: bool)
      reads this
      ensures ok ==> table != null
      ensures ok <==> table != null && statusReadable
    {
      if table == null then false else statusReadable
    }

    /** `get_all_areas`: [] without a table; otherwise every METADATA item
        that converts, one entry per item, skipping those that do not. */
    method GetAllAreas(now: Timestamp) returns (areas: seq<AreaCapacity>, ghost keys: seq<Key>)
      ensures table == null ==> areas == []
      ensures table != null ==> ScanResult(table.items, now, areas, keys)
      ensures table != null ==> |areas| <= |MetadataKeys(table.items)|
    {
      areas, keys := [], [];
      if table == null {
        return;
      }
      var scanned := MetadataKeys(table.items);
      var pending := scanned;
      while pending != {}
        invariant pending <= scanned
        invariant |keys| == |areas|
        invariant forall i, j :: 0 <= i < j < |keys| ==> keys[i] != keys[j]
        invariant forall k :: k in keys <==> Listed(table.items, k, now) && k !in pending
        invariant forall i :: 0 <= i < |keys| ==> keys[i] in table.items && ItemToArea(table.items[keys[i]], now) == Some(areas[i])
        decreases pending
      {
        var k :| k in pending;
        pending := pending - {k};
        var area := ItemToArea(table.items[k], now);
        if area.Some? {
          areas := areas + [area.value];
          keys := keys + [k];
        }
      }
      DistinctKeysBound(keys, scanned);
    }

    /** `get_area`: None without a table or without an item under the
        area's key; the item's fields otherwise, raising when they do not
        convert. */
    function GetArea(areaId: string, now: Timestamp): (r: Reply<AreaCapacity>)
      reads this, table
      ensures r.NotFound? <==> table == null || AreaKey(areaId) !in table.items
      ensures r.Raised? <==> table != null && AreaKey(areaId) in table.items && ItemToArea(table.items[AreaKey(areaId)], now).None?
      ensures r.Done? ==> table != null && AreaKey(areaId) in table.items
                          && ItemToArea(table.items[AreaKey(areaId)], now) == Some(r.value)
                          && r.value.isOpen == (table.items[AreaKey(areaId)].isOpen != Some(false))
    {
      if table == null then NotFound
      else if AreaKey(areaId) !in table.items then NotFound
      else Converted(table.items[AreaKey(areaId)], now)
    }

    /** `update_capacity`: add 1 for "enter", subtract 1 for any other action,
        a missing count reading as 0, and reset a negative result to 0.
        Missing table or area: None and nothing changes. */
    method UpdateCapacity(areaId: string, action: string, now: Timestamp, clampNow: Timestamp)
      returns (r: Reply<AreaCapacity>)
      modifies table
      ensures r.NotFound? <==> table == null || AreaKey(areaId) !in old(table.items)
      ensures table != null && AreaKey(areaId) !in old(table.items) ==> table.items == old(table.items)
      ensures table != null && AreaKey(areaId) in old(table.items) ==>
        && table.items == old(table.items)[AreaKey(areaId) := AfterUpdate(old(table.items)[AreaKey(areaId)], action, now, clampNow)]
        && r == Converted(UpdateReturned(old(table.items)[AreaKey(areaId)], action, now), now)
      ensures r.Done? ==> table != null && table.items[AreaKey(areaId)].currentCount == Some(r.value.currentCount)
      ensures r.Done? ==> r.value.currentCount >= 0
      ensures table != null && CountsNonNegative(old(table.items)) ==> CountsNonNegative(table.items)
    {
      if table == null {
        return NotFound;
      }
      var key := AreaKey(areaId);
      var increment := if action == "enter" then 1 else -1;
      if key !in table.items {
        return NotFound;
      }
      var item := WithCount(table.items[key], StoredCount(table.items[key]) + increment, now);
      table.items := table.items[key := item];
      if item.currentCount.value < 0 {
        var reset := SetCapacity(areaId, 0, clampNow);
        item := item.(currentCount := Some(0));
      }
      r := Converted(item, now);
    }

    /** `set_capacity`: store `max(0, count)` stamped `now`, changing no other
        attribute and no other item. Missing table or area: None. */
    method SetCapacity(areaId: string, count: int, now: Timestamp) returns (r: Reply<AreaCapacity>)
      modifies table
      ensures r.NotFound? <==> table == null || AreaKey(areaId) !in old(table.items)
      ensures table != null && AreaKey(areaId) !in old(table.items) ==> table.items == old(table.items)
      ensures table != null && AreaKey(areaId) in old(table.items) ==>
        && table.items == old(table.items)[AreaKey(areaId) := WithCount(old(table.items)[AreaKey(areaId)], Clamp(count), now)]
        && r == Converted(table.items[AreaKey(areaId)], now)
      ensures r.Done? ==> r.value.currentCount == Clamp(count) && r.value.lastUpdated == now
      ensures table != null && CountsNonNegative(old(table.items)) ==> CountsNonNegative(table.items)
    {
      if table == null {
        return NotFound;
      }
      var key := AreaKey(areaId);
      if key !in table.items {
        return NotFound;
      }
      var item := WithCount(table.items[key], if count < 0 then 0 else count, now);
      table.items := table.items[key := item];
      r := Converted(item, now);
    }

    /** `create_area`: raise without a table; otherwise put a fresh item with
        count 0 under the area's key, replacing any item there, and return
        it, raising when it breaks the model constraints (`max_capacity` not
        positive) after the write. */
    method CreateArea(areaId: string, name: string, maxCapacity: int, isOpen: bool, now: Timestamp)
      returns (r: Reply<AreaCapacity>)
      modifies table
      ensures r.NotFound? == false
      ensures table == null ==> r.Raised?
      ensures table != null ==> table.items == old(table.items)[AreaKey(areaId) := NewAreaItem(areaId, name, maxCapacity, isOpen, now)]
      ensures table != null ==> (r.Done? <==> maxCapacity > 0)
      ensures r.Done? ==> r.value == AreaCapacity(areaId, name, 0, maxCapacity, isOpen, now)
      ensures table != null && CountsNonNegative(old(table.items)) ==> CountsNonNegative(table.items)
    {
      if table == null {
        return Raised("DynamoDB table not initialized");
      }
      var key := AreaKey(areaId);
      table.items := table.items[key := NewAreaItem(areaId, name, maxCapacity, isOpen, now)];
      var area := NewAreaCapacity(areaId, name, 0, maxCapacity, Some(isOpen), Some(now), now);
      r := if area.Some? then Done(area.value) else Raised("max_capacity must be greater than 0");
    }
  }

  /** Distinct keys drawn from `s` are no more than `s` has. */
  lemma {:induction false} DistinctKeysBound(keys: seq<Key>, s: set<Key>)
    requires forall i, j :: 0 <= i < j < |keys| ==> keys[i] != keys[j]
    requires forall i :: 0 <= i < |keys| ==> keys[i] in s
    ensures |keys| <= |s|
    decreases |keys|
  {
    if keys != [] {
      var last := keys[|keys| - 1];
      DistinctKeysBound(keys[..|keys| - 1], s - {last});
    }
  }

  /** A created area reads back as created: count 0, the requested name,
      capacity and open flag, and `last_updated` equal to `created_at`. */
  lemma CreateThenGet(areaId: string, name: string, maxCapacity: int, isOpen: bool, stamp: Timestamp, now: Timestamp)
    requires maxCapacity > 0
    ensures ItemToArea(NewAreaItem(areaId, name, maxCapacity, isOpen, stamp), now)
            == Some(AreaCapacity(areaId, name, 0, maxCapacity, isOpen, stamp))
  {
  }

  /** A reset to a non-negative `n` reads back as exactly `n`, whatever
      count the item held before, even none or a negative one. */
  lemma ResetThenGet(item: Item, n: nat, stamp: Timestamp, now: Timestamp)
    requires item.areaId.Some? && item.name.Some? && item.maxCapacity.Some? && item.maxCapacity.value > 0
    ensures ItemToArea(WithCount(item, Clamp(n), stamp), now).Some?
    ensures ItemToArea(WithCount(item, Clamp(n), stamp), now).value.currentCount == n
  {
  }

  /** Successive `update_capacity` calls follow the clamped counter: the
      count after a run of actions is `Replay` of their increments. */
  lemma {:induction false} UpdatesReplay(before: Item, actions: seq<string>, stamps: seq<Timestamp>)
    requires |stamps| == |actions| && StoredCount(before) >= 0
    ensures StoredCount(UpdateRun(before, actions, stamps)) == Replay(StoredCount(before), Increments(actions))
    decreases |actions|
  {
    if actions != [] {
      var n := |actions| - 1;
      UpdatesReplay(before, actions[..n], stamps[..n]);
      assert Increments(actions)[..n] == Increments(actions[..n]);
    }
  }

  /** The item after applying `actions` in order through `update_capacity`,
      each with its own timestamp (the clamp write reusing it). */
  function UpdateRun(before: Item, actions: seq<string>, stamps: seq<Timestamp>): (after: Item)
    requires |stamps| == |actions|
    decreases |actions|
  {
    if actions == [] then before
    else
      var n := |actions| - 1;
      AfterUpdate(UpdateRun(before, actions[..n], stamps[..n]), actions[n], stamps[n], stamps[n])
  }

  /** The signed increments of a run of actions. */
  function Increments(actions: seq<string>): (ds: seq<int>)
    ensures |ds| == |actions|
    ensures forall i :: 0 <= i < |actions| ==> ds[i] == Increment(actions[i])
  {
    seq(|actions|, i requires 0 <= i < |actions| => Increment(actions[i]))
  }
}
