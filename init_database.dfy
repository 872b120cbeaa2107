/** The seeding and verification steps of init_database.py: merge the
    configured areas into the table, keeping the live counts of areas that
    already exist, then check how many area items the table holds. */
module InitDatabase {
  import opened Common
  import opened Store

  /** One configured area. */
  datatype AreaConfig = AreaConfig(areaId: string, name: string, maxCapacity: int)

  /** `INITIAL_AREAS`, in order. */
  const INITIAL_AREAS: seq<AreaConfig> := [
    AreaConfig("weight-room", "Weight Room", 100),
    AreaConfig("cardio", "Cardio Area", 60),
    AreaConfig("track", "Indoor Track", 50),
    AreaConfig("pool", "Swimming Pool", 40),
    AreaConfig("basketball", "Basketball Courts", 30),
    AreaConfig("racquetball", "Racquetball Courts", 20),
    AreaConfig("climbing", "Climbing Wall", 15),
    AreaConfig("group-fitness", "Group Fitness Studio", 40)
  ]

  /** No two configured areas share an id. */
  predicate DistinctIds(configs: seq<AreaConfig>) {
    forall i, j :: 0 <= i < j < |configs| ==> configs[i].areaId != configs[j].areaId
  }

  /** The configuration is well formed: ids are distinct and every capacity
      is positive, as the record model requires. */
  lemma InitialAreasWellFormed()
    ensures DistinctIds(INITIAL_AREAS)
    ensures forall i :: 0 <= i < |INITIAL_AREAS| ==> INITIAL_AREAS[i].maxCapacity > 0
    ensures |INITIAL_AREAS| == 8
  {
  }

  /** The keys of the configured areas. */
  function ConfigKeys(configs: seq<AreaConfig>): (ks: set<Key>)
    ensures forall k :: k in ks ==> k.sk == METADATA
  {
    set i | 0 <= i < |configs| :: AreaKey(configs[i].areaId)
  }

  /** The configured keys are the prefix's keys plus the last area's key. */
  lemma ConfigKeysSnoc(configs: seq<AreaConfig>)
    requires configs != []
    ensures ConfigKeys(configs) == ConfigKeys(configs[..|configs| - 1]) + {AreaKey(configs[|configs| - 1].areaId)}
  {
    var n := |configs| - 1;
    forall k | k in ConfigKeys(configs)
      ensures k in ConfigKeys(configs[..n]) + {AreaKey(configs[n].areaId)}
    {
      var i :| 0 <= i < |configs| && k == AreaKey(configs[i].areaId);
      if i < n {
        assert configs[..n][i] == configs[i];
      }
    }
    forall k | k in ConfigKeys(configs[..n])
      ensures k in ConfigKeys(configs)
    {
      var i :| 0 <= i < n && k == AreaKey(configs[..n][i].areaId);
      assert configs[..n][i] == configs[i];
    }
  }

  /** The `update_item` on an existing area: refresh `max_capacity` and `name`. */
  function Refreshed(item: Item, config: AreaConfig): (r: Item)
    ensures r.maxCapacity == Some(config.maxCapacity) && r.name == Some(config.name)
    ensures r.currentCount == item.currentCount && r.lastUpdated == item.lastUpdated
    ensures r.areaId == item.areaId && r.isOpen == item.isOpen
    ensures r.createdAt == item.createdAt && r.updateCount == item.updateCount
  {
    item.(maxCapacity := Some(config.maxCapacity), name := Some(config.name))
  }

  /** What one configured area's key holds once it has been seeded into `t`. */
  function SeedEntry(t: map<Key, Item>, config: AreaConfig, stamp: Timestamp): (entry: Item) {
    var key := AreaKey(config.areaId);
    if key in t then Refreshed(t[key], config)
    else NewAreaItem(config.areaId, config.name, config.maxCapacity, true, stamp)
  }

  /** One iteration of the seeding loop. */
  function SeedOne(t: map<Key, Item>, config: AreaConfig, stamp: Timestamp): (seeded: map<Key, Item>) {
    t[AreaKey(config.areaId) := SeedEntry(t, config, stamp)]
  }

  /** The table after seeding `configs` in order. */
  function SeedAll(t: map<Key, Item>, configs: seq<AreaConfig>, stamp: Timestamp): (seeded: map<Key, Item>)
    decreases |configs|
  {
    if configs == [] then t
    else
      var n := |configs| - 1;
      SeedOne(SeedAll(t, configs[..n], stamp), configs[n], stamp)
  }

  /** How many iterations of the seeding loop took the create branch. */
  function CreatedCount(t: map<Key, Item>, configs: seq<AreaConfig>, stamp: Timestamp): (created: nat)
    decreases |configs|
  {
    if configs == [] then 0
    else
      var n := |configs| - 1;
      CreatedCount(t, configs[..n], stamp)
        + (if AreaKey(configs[n].areaId) in SeedAll(t, configs[..n], stamp) then 0 else 1)
  }

  /** `seed_areas`, with the table's timestamp `now + "Z"`: an area already
      present keeps its count and has only `max_capacity` and `name`
      overwritten; an absent area is created with count 0, open, and
      `last_updated == created_at`. Returns the created and updated counters
      (the script prints them). */
  method SeedAreas(table: Table, now: Timestamp) returns (created: nat, updated: nat)
    modifies table
    ensures table.items == SeedAll(old(table.items), INITIAL_AREAS, now + "Z")
    ensures created == CreatedCount(old(table.items), INITIAL_AREAS, now + "Z")
    ensures created + updated == |INITIAL_AREAS|
  {
    var stamp := now + "Z";
    ghost var start := table.items;
    created, updated := 0, 0;
    for i := 0 to |INITIAL_AREAS|
      invariant table.items == SeedAll(start, INITIAL_AREAS[..i], stamp)
      invariant created == CreatedCount(start, INITIAL_AREAS[..i], stamp)
      invariant created + updated == i
    {
      var config := INITIAL_AREAS[i];
      var key := AreaKey(config.areaId);
      assert INITIAL_AREAS[..i + 1][..i] == INITIAL_AREAS[..i];
      if key in table.items {
        table.items := table.items[key := table.items[key].(maxCapacity := Some(config.maxCapacity), name := Some(config.name))];
        updated := updated + 1;
      } else {
        table.items := table.items[key := NewAreaItem(config.areaId, config.name, config.maxCapacity, true, stamp)];
        created := created + 1;
      }
    }
    assert INITIAL_AREAS[..|INITIAL_AREAS|] == INITIAL_AREAS;
  }

  /** Distinct ids give distinct keys: the last area's key is not among the others'. */
  lemma LastKeyIsNew(configs: seq<AreaConfig>)
    requires configs != [] && DistinctIds(configs)
    ensures AreaKey(configs[|configs| - 1].areaId) !in ConfigKeys(configs[..|configs| - 1])
  {
    var n := |configs| - 1;
    forall i | 0 <= i < n
      ensures AreaKey(configs[..n][i].areaId) != AreaKey(configs[n].areaId)
    {
      AreaKeyInjective(configs[i].areaId, configs[n].areaId);
    }
  }

  /** Seeding adds exactly the configured keys to the table. */
  lemma {:induction false} SeedAllKeys(t: map<Key, Item>, configs: seq<AreaConfig>, stamp: Timestamp)
    ensures SeedAll(t, configs, stamp).Keys == t.Keys + ConfigKeys(configs)
    decreases |configs|
  {
    if configs != [] {
      SeedAllKeys(t, configs[..|configs| - 1], stamp);
      ConfigKeysSnoc(configs);
    }
  }

  /** Seeding, key by key: the table gains exactly the configured keys; a
      configured key holds its `SeedEntry`; every other item is untouched. */
  lemma {:induction false} SeedAllAt(t: map<Key, Item>, configs: seq<AreaConfig>, stamp: Timestamp)
    requires DistinctIds(configs)
    ensures SeedAll(t, configs, stamp).Keys == t.Keys + ConfigKeys(configs)
    ensures forall i :: 0 <= i < |configs| ==>
      SeedAll(t, configs, stamp)[AreaKey(configs[i].areaId)] == SeedEntry(t, configs[i], stamp)
    ensures forall k :: k in t && k !in ConfigKeys(configs) ==> SeedAll(t, configs, stamp)[k] == t[k]
    decreases |configs|
  {
    if configs != [] {
      var n := |configs| - 1;
      var prefix := configs[..n];
      SeedAllAt(t, prefix, stamp);
      LastKeyIsNew(configs);
      ConfigKeysSnoc(configs);
      var lastKey := AreaKey(configs[n].areaId);
      var before := SeedAll(t, prefix, stamp);
      assert lastKey in before <==> lastKey in t;
      assert lastKey in t ==> before[lastKey] == t[lastKey];
      assert SeedEntry(before, configs[n], stamp) == SeedEntry(t, configs[n], stamp);
      forall i | 0 <= i < n
        ensures SeedAll(t, configs, stamp)[AreaKey(configs[i].areaId)] == SeedEntry(t, configs[i], stamp)
      {
        AreaKeyInjective(configs[i].areaId, configs[n].areaId);
        assert prefix[i] == configs[i];
      }
    }
  }

  /** An area that already exists keeps its count, open flag, timestamps and
      id through seeding; a configured area that was absent is created with
      count 0, open, and `last_updated == created_at`. */
  lemma SeedKeepsCounts(t: map<Key, Item>, configs: seq<AreaConfig>, stamp: Timestamp)
    requires DistinctIds(configs)
    ensures forall k :: k in t ==>
      && k in SeedAll(t, configs, stamp)
      && SeedAll(t, configs, stamp)[k].currentCount == t[k].currentCount
      && SeedAll(t, configs, stamp)[k].isOpen == t[k].isOpen
      && SeedAll(t, configs, stamp)[k].lastUpdated == t[k].lastUpdated
    ensures forall i :: 0 <= i < |configs| && AreaKey(configs[i].areaId) !in t ==>
      && AreaKey(configs[i].areaId) in SeedAll(t, configs, stamp)
      && SeedAll(t, configs, stamp)[AreaKey(configs[i].areaId)]
        == NewAreaItem(configs[i].areaId, configs[i].name, configs[i].maxCapacity, true, stamp)
    ensures CountsNonNegative(t) ==> CountsNonNegative(SeedAll(t, configs, stamp))
  {
    SeedAllAt(t, configs, stamp);
    var seeded := SeedAll(t, configs, stamp);
    forall k | k in t && k in ConfigKeys(configs)
      ensures seeded[k].currentCount == t[k].currentCount && seeded[k].isOpen == t[k].isOpen
      ensures seeded[k].lastUpdated == t[k].lastUpdated
    {
      var i :| 0 <= i < |configs| && k == AreaKey(configs[i].areaId);
    }
    forall k | k in seeded && k !in t
      ensures seeded[k].currentCount == Some(0)
    {
      var i :| 0 <= i < |configs| && k == AreaKey(configs[i].areaId);
    }
  }

  /** Running the seeding twice leaves the table as one run left it, so in
      particular every count and the set of keys are unchanged. */
  lemma SeedIdempotent(t: map<Key, Item>, configs: seq<AreaConfig>, stamp1: Timestamp, stamp2: Timestamp)
    requires DistinctIds(configs)
    ensures SeedAll(SeedAll(t, configs, stamp1), configs, stamp2) == SeedAll(t, configs, stamp1)
  {
    var once := SeedAll(t, configs, stamp1);
    var twice := SeedAll(once, configs, stamp2);
    SeedAllAt(t, configs, stamp1);
    SeedAllAt(once, configs, stamp2);
    assert twice.Keys == once.Keys;
    forall k | k in once
      ensures twice[k] == once[k]
    {
      if k in ConfigKeys(configs) {
        var i :| 0 <= i < |configs| && k == AreaKey(configs[i].areaId);
        assert twice[k] == Refreshed(once[k], configs[i]);
      }
    }
  }

  /** `created_count` is the number of configured areas absent before
      seeding, and the two counters together cover every configured area
      exactly once. */
  lemma CreatedCountIsAbsent(t: map<Key, Item>, configs: seq<AreaConfig>, stamp: Timestamp)
    requires DistinctIds(configs)
    ensures CreatedCount(t, configs, stamp) == |ConfigKeys(configs) - t.Keys|
    ensures |configs| - CreatedCount(t, configs, stamp) == |ConfigKeys(configs) * t.Keys|
  {
    CreatedCountStep(t, configs, stamp);
    ConfigKeysCount(configs);
    var ks := ConfigKeys(configs);
    assert ks == (ks - t.Keys) + (ks * t.Keys);
    assert (ks - t.Keys) !! (ks * t.Keys);
  }

  lemma {:induction false} CreatedCountStep(t: map<Key, Item>, configs: seq<AreaConfig>, stamp: Timestamp)
    requires DistinctIds(configs)
    ensures CreatedCount(t, configs, stamp) == |ConfigKeys(configs) - t.Keys|
    decreases |configs|
  {
    if configs != [] {
      var n := |configs| - 1;
      var prefix := configs[..n];
      CreatedCountStep(t, prefix, stamp);
      SeedAllKeys(t, prefix, stamp);
      LastKeyIsNew(configs);
      ConfigKeysSnoc(configs);
      var lastKey := AreaKey(configs[n].areaId);
      var seeded := ConfigKeys(prefix);
      var absent := seeded - t.Keys;
      assert CreatedCount(t, configs, stamp)
        == CreatedCount(t, prefix, stamp) + (if lastKey in SeedAll(t, prefix, stamp) then 0 else 1);
      assert lastKey !in absent;
      SnocDifference(seeded, t.Keys, lastKey);
    }
  }

  /** Adding a key not already present to a set adds one to its difference
      with `b` exactly when the key is not in `b`. */
  lemma SnocDifference(a: set<Key>, b: set<Key>, x: Key)
    requires x !in a
    ensures x in b ==> (a + {x}) - b == a - b
    ensures x !in b ==> (a + {x}) - b == (a - b) + {x} && |(a + {x}) - b| == |a - b| + 1
  {
  }

  /** Distinct ids give as many keys as configured areas. */
  lemma {:induction false} ConfigKeysCount(configs: seq<AreaConfig>)
    requires DistinctIds(configs)
    ensures |ConfigKeys(configs)| == |configs|
    decreases |configs|
  {
    if configs != [] {
      ConfigKeysCount(configs[..|configs| - 1]);
      LastKeyIsNew(configs);
      ConfigKeysSnoc(configs);
    }
  }

  /** The item has the attributes `verify_setup` prints: `name`,
      `current_count` and `max_capacity` (`is_open` is read with a default). */
  predicate Listable(item: Item) {
    item.name.Some? && item.currentCount.Some? && item.maxCapacity.Some?
  }

  /** `verify_setup`: the listing of the scanned METADATA items raises
      (KeyError) when one of them lacks an attribute it prints; otherwise
      the check succeeds iff the scan found at least as many items as there
      are configured areas. Every configured area being present is enough;
      the check counts items and does not look at ids. */
  function VerifySetup(table: Table): (r: Reply<bool>)
    reads table
    ensures r.NotFound? == false
    ensures r.Raised? <==> exists k :: k in MetadataKeys(table.items) && !Listable(table.items[k])
    ensures r.Done? ==> (r.value <==> |MetadataKeys(table.items)| >= |INITIAL_AREAS|)
    ensures r.Done? && ConfigKeys(INITIAL_AREAS) <= table.items.Keys ==> r.value
  {
    InitialAreasWellFormed();
    ConfiguredAreasPass(table.items, INITIAL_AREAS);
    if exists k | k in MetadataKeys(table.items) :: !Listable(table.items[k]) then Raised("KeyError")
    else Done(|MetadataKeys(table.items)| >= |INITIAL_AREAS|)
  }

  /** A table holding every configured area has at least as many METADATA
      items as there are configured areas. */
  lemma ConfiguredAreasPass(t: map<Key, Item>, configs: seq<AreaConfig>)
    requires DistinctIds(configs)
    ensures ConfigKeys(configs) <= t.Keys ==> |MetadataKeys(t)| >= |configs|
  {
    if ConfigKeys(configs) <= t.Keys {
      ConfigKeysCount(configs);
      var configured := ConfigKeys(configs);
      var metadata := MetadataKeys(t);
      assert configured <= metadata;
      assert metadata == configured + (metadata - configured);
    }
  }

  /** Seeding leaves every METADATA item listable when they all were
      before: refreshed areas keep their count and gain name and capacity,
      created areas have all three, and other items are untouched. */
  lemma SeedKeepsListable(t: map<Key, Item>, stamp: Timestamp)
    requires forall k :: k in t && k.sk == METADATA ==> Listable(t[k])
    ensures forall k :: k in MetadataKeys(SeedAll(t, INITIAL_AREAS, stamp)) ==>
      Listable(SeedAll(t, INITIAL_AREAS, stamp)[k])
  {
    InitialAreasWellFormed();
    SeedAllAt(t, INITIAL_AREAS, stamp);
    var seeded := SeedAll(t, INITIAL_AREAS, stamp);
    forall k | k in MetadataKeys(seeded)
      ensures Listable(seeded[k])
    {
      if k in ConfigKeys(INITIAL_AREAS) {
        var i :| 0 <= i < |INITIAL_AREAS| && k == AreaKey(INITIAL_AREAS[i].areaId);
        assert seeded[k] == SeedEntry(t, INITIAL_AREAS[i], stamp);
      }
    }
  }

  /** After seeding a table whose METADATA items all carry a name, a count
      and a capacity, `verify_setup` succeeds. */
  lemma SeedThenVerify(table: Table, t: map<Key, Item>, stamp: Timestamp)
    requires table.items == SeedAll(t, INITIAL_AREAS, stamp)
    requires forall k :: k in t && k.sk == METADATA ==> Listable(t[k])
    ensures VerifySetup(table) == Done(true)
  {
    InitialAreasWellFormed();
    SeedAllKeys(t, INITIAL_AREAS, stamp);
    SeedKeepsListable(t, stamp);
  }

  /** Seeding does not repair a missing count: an existing pool item
      without `current_count` is only refreshed, so `verify_setup` raises
      after seeding. */
  lemma SeedKeepsMissingCount(table: Table, stamp: Timestamp)
    requires table.items == SeedAll(map[AreaKey("pool") := Item(None, None, None, None, None, None, None, None)],
                                    INITIAL_AREAS, stamp)
    ensures VerifySetup(table).Raised?
  {
    var t := map[AreaKey("pool") := Item(None, None, None, None, None, None, None, None)];
    InitialAreasWellFormed();
    SeedAllAt(t, INITIAL_AREAS, stamp);
    assert INITIAL_AREAS[3].areaId == "pool";
    assert table.items[AreaKey("pool")] == Refreshed(t[AreaKey("pool")], INITIAL_AREAS[3]);
    assert AreaKey("pool") in MetadataKeys(table.items);
  }
}
