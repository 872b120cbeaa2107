/** The DynamoDB table shared by the FastAPI backend, the Lambda updater and
    the seeding script: a single-table design keyed by (PK, SK), one METADATA
    item per area under PK = "AREA#" + area_id. Items are schema-less, so every
    attribute of a stored item may be missing. */
module Store {
  import opened Common

  const AREA_PREFIX: string := "AREA#"
  const METADATA: string := "METADATA"

  /** Composite primary key: partition key PK and sort key SK. */
  datatype Key = Key(pk: string, sk: string)

  /** The key every module builds for an area: `f"AREA#{area_id}"` / "METADATA". */
  function AreaKey(areaId: string): (k: Key)
    ensures k.sk == METADATA
    ensures |k.pk| == |AREA_PREFIX| + |areaId|
    ensures k.pk[..|AREA_PREFIX|] == AREA_PREFIX && k.pk[|AREA_PREFIX|..] == areaId
  {
    Key(AREA_PREFIX + areaId, METADATA)
  }

  /** Two areas share a key exactly when they share an id, so no area's item
      can overwrite another's. */
  lemma AreaKeyInjective(a: string, b: string)
    ensures AreaKey(a) == AreaKey(b) <==> a == b
  {
    if AreaKey(a) == AreaKey(b) {
      assert a == AreaKey(a).pk[|AREA_PREFIX|..];
    }
  }

  /** A stored item, attribute by attribute (PK and SK are its map key).
      `update_count` is only ever written by the Lambda updater. */
  datatype Item = Item(
    areaId: Option<string>,
    name: Option<string>,
    currentCount: Option<int>,
    maxCapacity: Option<int>,
    isOpen: Option<bool>,
    lastUpdated: Option<Timestamp>,
    createdAt: Option<Timestamp>,
    updateCount: Option<int>)

  /** The item `create_area` and the seeding script put for a new area:
      count 0 and `last_updated == created_at`. */
  function NewAreaItem(areaId: string, name: string, maxCapacity: int, isOpen: bool, stamp: Timestamp): (item: Item)
    ensures item.currentCount == Some(0) && item.lastUpdated == item.createdAt == Some(stamp)
    ensures item.areaId == Some(areaId) && item.name == Some(name)
    ensures item.maxCapacity == Some(maxCapacity) && item.isOpen == Some(isOpen)
    ensures item.updateCount.None?
  {
    Item(Some(areaId), Some(name), Some(0), Some(maxCapacity), Some(isOpen), Some(stamp), Some(stamp), None)
  }

  /** `if_not_exists(current_count, :zero)`: a missing count reads as 0. */
  function StoredCount(item: Item): (n: int)
    ensures item.currentCount.None? ==> n == 0
    ensures item.currentCount.Some? ==> n == item.currentCount.value
  {
    item.currentCount.GetOr(0)
  }

  /** The update expression `SET current_count = :c, last_updated = :t`. */
  function WithCount(item: Item, count: int, stamp: Timestamp): (r: Item)
    ensures r.currentCount == Some(count) && r.lastUpdated == Some(stamp)
    ensures SameAttributes(item, r)
  {
    item.(currentCount := Some(count), lastUpdated := Some(stamp))
  }

  /** The two items agree on every attribute a count update must leave alone. */
  predicate SameAttributes(a: Item, b: Item) {
    && a.areaId == b.areaId && a.name == b.name && a.maxCapacity == b.maxCapacity
    && a.isOpen == b.isOpen && a.createdAt == b.createdAt && a.updateCount == b.updateCount
  }

  /** No stored count is negative. */
  predicate CountsNonNegative(t: map<Key, Item>) {
    forall k :: k in t && t[k].currentCount.Some? ==> t[k].currentCount.value >= 0
  }

  /** The keys a scan with `FilterExpression=Key('SK').eq('METADATA')` visits. */
  function MetadataKeys(t: map<Key, Item>): (ks: set<Key>)
    ensures forall k :: k in ks <==> k in t && k.sk == METADATA
  {
    set k | k in t && k.sk == METADATA
  }

  /** The DynamoDB table handle; its items are updated in place by every writer. */
  class Table {
    var items: map<Key, Item>

    constructor (items: map<Key, Item>)
      ensures this.items == items
    {
      this.items := items;
    }
  }

  // ---------------------------------------------------------------------------
  // Counter semantics shared by both update paths: add a signed delta to the
  // stored count, then overwrite a negative result with 0.

  /** `max(0, n)`. */
  function Clamp(n: int): (r: nat)
    ensures r >= n && (r == n || r == 0)
  {
    if n < 0 then 0 else n
  }

  /** The count after applying `deltas` one update at a time from `start`. */
  function Replay(start: nat, deltas: seq<int>): (count: nat)
    decreases |deltas|
  {
    if deltas == [] then start
    else Clamp(Replay(start, deltas[..|deltas| - 1]) + deltas[|deltas| - 1])
  }

  /** Sum of the deltas. */
  function Sum(deltas: seq<int>): (total: int)
    decreases |deltas|
  {
    if deltas == [] then 0 else Sum(deltas[..|deltas| - 1]) + deltas[|deltas| - 1]
  }

  /** The lowest point (never above 0) the unclamped running total
      `start + Sum(deltas[..j])` reaches over the non-empty prefixes. */
  function LowWater(start: nat, deltas: seq<int>): (m: int)
    ensures m <= 0
    decreases |deltas|
  {
    if deltas == [] then 0
    else
      var before := LowWater(start, deltas[..|deltas| - 1]);
      var total := start + Sum(deltas);
      if total < before then total else before
  }

  /** The clamped counter equals the unclamped sum lifted by how far the
      running total dipped below zero: every clamp adds back exactly the
      part of a decrement that would have gone negative. */
  lemma {:induction false} ReplayIsLiftedSum(start: nat, deltas: seq<int>)
    ensures Replay(start, deltas) == start + Sum(deltas) - LowWater(start, deltas)
    decreases |deltas|
  {
    if deltas != [] {
      ReplayIsLiftedSum(start, deltas[..|deltas| - 1]);
    }
  }

  /** When the running total never dips below zero no clamp fires, and the
      counter is the plain sum of the deltas; in any case it is at least that. */
  lemma ReplayWithoutDip(start: nat, deltas: seq<int>)
    ensures Replay(start, deltas) >= start + Sum(deltas)
    ensures LowWater(start, deltas) == 0 ==> Replay(start, deltas) == start + Sum(deltas)
  {
    ReplayIsLiftedSum(start, deltas);
  }

  /** An entry of `n` people followed by an exit of `n` restores the count. */
  lemma EnterThenExitRestores(start: nat, n: nat)
    ensures Replay(start, [n as int, -(n as int)]) == start
  {
    var deltas: seq<int> := [n as int, -(n as int)];
    assert deltas[..1] == [n as int] && deltas[..1][..0] == [];
    assert Replay(start, deltas[..1]) == start + n;
  }
}
