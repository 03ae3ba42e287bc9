/**
 The serving index (server/zone.go): compiled zones by apex, apexes blocked by a conflict, and the
 apex each snapshot is served under.
 */
module ZoneIndexes {
  import opened Names
  import opened Zones
  import Exclusion

  /** A HostedZone object as the server sees it; `owned` says that a ZoneUnit owns it. */
  datatype Snapshot = Snapshot(key: Key, uid: string, generation: nat, owners: string, owned: bool, spec: Spec)

  datatype Table = Table(zones: map<Name, Zone>, blocked: set<Name>, keys: map<Key, Name>) {
    /** What queries see of the table. */
    function Index(): Exclusion.Index { Exclusion.Index(zones, blocked) }
  }

  /** Keys and zones are inverse to each other, no blocked apex is served, and there are at most `maxZones`. */
  ghost predicate Consistent(table: Table, maxZones: nat) {
    && (forall k :: k in table.keys ==> table.keys[k] in table.zones && table.zones[table.keys[k]].key == k)
    && (forall a :: a in table.zones ==>
          && table.zones[a].key in table.keys && table.keys[table.zones[a].key] == a
          && table.zones[a].apex == a)
    && (forall a :: a in table.blocked ==> a !in table.zones)
    && |table.keys| <= maxZones
  }

  // ---------- what each operation does ----------

  function ApexRemoved(table: Table, apex: Name): Table {
    if apex in table.zones then table.(zones := table.zones - {apex}, keys := table.keys - {table.zones[apex].key})
    else table
  }

  /** How a snapshot fares: it is served, clashes with another, finds no room, or does not compile. */
  datatype Outcome = Served | Unowned | Conflict | NoRoom | Invalid

  ghost function OutcomeOf(table: Table, maxZones: nat, snapshot: Snapshot): Outcome {
    var apex := Apex(snapshot.spec);
    if !snapshot.owned then Unowned
    else if apex in table.zones && table.zones[apex].key != snapshot.key then Conflict
    else if snapshot.key !in table.keys && |table.keys| >= maxZones then NoRoom
    else if !Accepts(snapshot.spec) then Invalid
    else Served
  }

  /** A zone takes its apex, and leaves the apex its key was served under before. */
  function Placed(table: Table, zone: Zone): Table {
    var moved := if zone.key in table.keys && table.keys[zone.key] != zone.apex
                 then ApexRemoved(table, table.keys[zone.key]) else table;
    Table(moved.zones[zone.apex := zone], moved.blocked - {zone.apex}, moved.keys[zone.key := zone.apex])
  }

  ghost function Replaced(table: Table, maxZones: nat, snapshot: Snapshot): Table {
    var apex := Apex(snapshot.spec);
    match OutcomeOf(table, maxZones, snapshot)
    case Unowned => if snapshot.key in table.keys then ApexRemoved(table, table.keys[snapshot.key]) else table
    case Conflict => ApexRemoved(table.(blocked := table.blocked + {apex}), apex)
    case NoRoom => table
    case Invalid => table
    case Served => Placed(table, Compiled(snapshot.spec, snapshot.key, snapshot.uid))
  }

  function Removed(table: Table, key: Key, uid: string): Table {
    if key !in table.keys then table
    else if table.keys[key] in table.zones && table.zones[table.keys[key]].uid != uid then table
    else ApexRemoved(table, table.keys[key])
  }

  function Absent(table: Table, apex: Name, conflict: bool): Table {
    ApexRemoved(table.(blocked := if conflict then table.blocked + {apex} else table.blocked - {apex}), apex)
  }

  // ---------- the object ----------

  class ZoneIndex {
    var zones: map<Name, Zone>
    var blocked: set<Name>
    var keys: map<Key, Name>
    const maxZones: nat

    function Value(): Table
      reads this
    {
      Table(zones, blocked, keys)
    }

    ghost predicate Valid()
      reads this
    {
      Consistent(Value(), maxZones)
    }

    constructor (maxZones: nat)
      ensures this.maxZones == maxZones && Value() == Table(map[], {}, map[])
      ensures Valid()
    {
      this.maxZones := maxZones;
      zones, blocked, keys := map[], {}, map[];
    }

    method RemoveApex(apex: Name)
      modifies this
      ensures Value() == ApexRemoved(old(Value()), apex)
    {
      if apex in zones {
        keys := keys - {zones[apex].key};
        zones := zones - {apex};
      }
    }

    method Replace(snapshot: Snapshot) returns (outcome: Outcome)
      requires Valid()
      modifies this
      ensures outcome == OutcomeOf(old(Value()), maxZones, snapshot)
      ensures Value() == Replaced(old(Value()), maxZones, snapshot)
      ensures Valid()
    {
      ReplaceIsConsistent(Value(), maxZones, snapshot);
      if !snapshot.owned {
        if snapshot.key in keys {
          RemoveApex(keys[snapshot.key]);
        }
        return Unowned;
      }
      var apex := Canonical(snapshot.spec.domain);
      if apex in zones && zones[apex].key != snapshot.key {
        blocked := blocked + {apex};
        RemoveApex(apex);
        return Conflict;
      }
      if snapshot.key !in keys && |keys| >= maxZones {
        return NoRoom;
      }
      var compiled := CompileZone(snapshot.spec, snapshot.key, snapshot.uid);
      if compiled.Err? {
        return Invalid;
      }
      Place(compiled.value);
      return Served;
    }

    method Place(zone: Zone)
      modifies this
      ensures Value() == Placed(old(Value()), zone)
    {
      if zone.key in keys && keys[zone.key] != zone.apex {
        RemoveApex(keys[zone.key]);
      }
      zones := zones[zone.apex := zone];
      keys := keys[zone.key := zone.apex];
      blocked := blocked - {zone.apex};
    }

    method Remove(key: Key, uid: string)
      requires Valid()
      modifies this
      ensures Value() == Removed(old(Value()), key, uid)
      ensures Valid()
    {
      RemovalIsConsistent(Value(), maxZones, if key in keys then keys[key] else Root);
      if key !in keys {
        return;
      }
      var apex := keys[key];
      if apex in zones && zones[apex].uid != uid {
        return;
      }
      RemoveApex(apex);
    }

    method ReconcileAbsent(apex: Name, conflict: bool)
      requires Valid()
      modifies this
      ensures Value() == Absent(old(Value()), apex, conflict)
      ensures Valid()
    {
      AbsenceIsConsistent(Value(), maxZones, apex, conflict);
      if conflict {
        blocked := blocked + {apex};
      } else {
        blocked := blocked - {apex};
      }
      RemoveApex(apex);
    }

    /** The walk from a name towards the root. */
    method Find(name: Name) returns (zone: Option<Zone>)
      ensures zone == Value().Index().Lookup(name)
    {
      var candidate := name;
      while candidate.Sub?
        invariant Value().Index().Lookup(name) == Value().Index().Lookup(candidate)
        decreases candidate
      {
        if candidate in blocked {
          return None;
        }
        if candidate in zones {
          return Some(zones[candidate]);
        }
        candidate := candidate.parent;
      }
      if candidate !in blocked && candidate in zones {
        return Some(zones[candidate]);
      }
      return None;
    }
  }

  // ---------- every operation keeps the table consistent ----------

  lemma Smaller<K, V>(large: map<K, V>, key: K)
    ensures |large - {key}| <= |large|
  {
    assert (large - {key}).Keys == large.Keys - {key};
    assert |(large - {key}).Keys| <= |large.Keys|;
  }

  lemma RemovalIsConsistent(table: Table, maxZones: nat, apex: Name)
    requires Consistent(table, maxZones)
    ensures Consistent(ApexRemoved(table, apex), maxZones)
    ensures apex !in ApexRemoved(table, apex).zones
    ensures apex in table.zones ==> |ApexRemoved(table, apex).keys| + 1 == |table.keys|
  {
    if apex in table.zones {
      var key := table.zones[apex].key;
      Smaller(table.keys, key);
      assert table.keys.Keys == (table.keys - {key}).Keys + {key};
    }
  }

  lemma AbsenceIsConsistent(table: Table, maxZones: nat, apex: Name, conflict: bool)
    requires Consistent(table, maxZones)
    ensures Consistent(Absent(table, apex, conflict), maxZones)
  {
    RemovalIsConsistent(table, maxZones, apex);
  }

  lemma ReplaceIsConsistent(table: Table, maxZones: nat, snapshot: Snapshot)
    requires Consistent(table, maxZones)
    ensures Consistent(Replaced(table, maxZones, snapshot), maxZones)
  {
    var apex := Apex(snapshot.spec);
    match OutcomeOf(table, maxZones, snapshot)
    case Unowned =>
      if snapshot.key in table.keys {
        RemovalIsConsistent(table, maxZones, table.keys[snapshot.key]);
      }
    case Conflict =>
      RemovalIsConsistent(table, maxZones, apex);
    case NoRoom =>
    case Invalid =>
    case Served =>
      PlacedIsConsistent(table, maxZones, Compiled(snapshot.spec, snapshot.key, snapshot.uid));
  }

  lemma PlacedIsConsistent(table: Table, maxZones: nat, zone: Zone)
    requires Consistent(table, maxZones)
    requires zone.apex in table.zones ==> table.zones[zone.apex].key == zone.key
    requires zone.key !in table.keys ==> |table.keys| < maxZones
    ensures Consistent(Placed(table, zone), maxZones)
  {
    if zone.key in table.keys && table.keys[zone.key] != zone.apex {
      RemovalIsConsistent(table, maxZones, table.keys[zone.key]);
      StoreIsConsistent(ApexRemoved(table, table.keys[zone.key]), maxZones, zone);
    } else {
      StoreIsConsistent(table, maxZones, zone);
    }
  }

  /** Replacing a snapshot leaves every other apex as it was, except that it may no longer be served. */
  lemma ReplacedElsewhere(table: Table, maxZones: nat, snapshot: Snapshot, apex: Name)
    requires apex != Apex(snapshot.spec)
    ensures var after := Replaced(table, maxZones, snapshot);
      && (apex in after.zones ==> apex in table.zones && after.zones[apex] == table.zones[apex])
      && (apex in after.blocked <==> apex in table.blocked)
  {
    if OutcomeOf(table, maxZones, snapshot).Served? {
      PlacedElsewhere(table, Compiled(snapshot.spec, snapshot.key, snapshot.uid), apex);
    }
  }

  lemma PlacedElsewhere(table: Table, zone: Zone, apex: Name)
    requires apex != zone.apex
    ensures apex in Placed(table, zone).zones ==>
      apex in table.zones && Placed(table, zone).zones[apex] == table.zones[apex]
    ensures apex in Placed(table, zone).blocked <==> apex in table.blocked
  {
  }

  /** Storing a compiled zone where its apex is free or already its own. */
  lemma StoreIsConsistent(table: Table, maxZones: nat, zone: Zone)
    requires Consistent(table, maxZones)
    requires zone.key in table.keys ==> table.keys[zone.key] == zone.apex
    requires zone.apex in table.zones ==> table.zones[zone.apex].key == zone.key
    requires zone.key !in table.keys ==> |table.keys| < maxZones
    ensures Consistent(Table(table.zones[zone.apex := zone], table.blocked - {zone.apex},
                             table.keys[zone.key := zone.apex]), maxZones)
  {
    var keys, zones := table.keys[zone.key := zone.apex], table.zones[zone.apex := zone];
    assert |keys| <= maxZones by {
      if zone.key in table.keys {
        assert keys.Keys == table.keys.Keys;
      } else {
        assert keys.Keys == table.keys.Keys + {zone.key};
      }
      assert |keys| == |keys.Keys| && |table.keys| == |table.keys.Keys|;
    }
    forall k | k in keys
      ensures keys[k] in zones && zones[keys[k]].key == k
    {
      if k != zone.key {
        assert k in table.keys;
      }
    }
    forall a | a in zones
      ensures zones[a].key in keys && keys[zones[a].key] == a && zones[a].apex == a
    {
      if a != zone.apex {
        assert a in table.zones;
      }
    }
  }

  // ---------- lookup ----------

  predicate Entry(index: Exclusion.Index, apex: Name) {
    apex in index.zones || apex in index.blocked
  }

  /** The closest enclosing entry of a name, served or blocked. */
  ghost predicate Closest(index: Exclusion.Index, name: Name, apex: Name) {
    Under(apex, name) && Entry(index, apex) && forall a :: Under(a, name) && Entry(index, a) ==> Under(a, apex)
  }

  /**
   Lookup returns a zone exactly when the closest enclosing entry is served and not blocked, and then returns that
   zone: a blocked apex never falls through to a parent zone.
   */
  lemma {:induction false} LookupIsClosest(index: Exclusion.Index, name: Name)
    ensures index.Lookup(name).Some? ==>
      exists a :: Closest(index, name, a) && a !in index.blocked && a in index.zones
                  && index.zones[a] == index.Lookup(name).value
    ensures index.Lookup(name).None? ==> forall a :: Closest(index, name, a) ==> a in index.blocked
  {
    if Entry(index, name) {
      assert Closest(index, name, name);
      forall a | Closest(index, name, a)
        ensures a == name
      {
        UnderDepth(a, name);
        UnderDepth(name, a);
      }
    } else if name.Sub? {
      LookupIsClosest(index, name.parent);
      forall a
        ensures Closest(index, name, a) <==> Closest(index, name.parent, a)
      {
        assert Entry(index, a) ==> (Under(a, name) <==> Under(a, name.parent));
        assert forall b :: Entry(index, b) ==> (Under(b, name) <==> Under(b, name.parent));
      }
    }
  }
}
