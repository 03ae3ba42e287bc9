/**
 Apex arbitration by the snapshot watcher (server/watch.go).

 The informer store changes first; the notifications about the changes are handled later, one index
 operation at a time, against whatever the store holds by then.
 */
module Watch {
  import opened Names
  import opened Zones
  import opened ZoneIndexes

  /** One index operation of a handler. `key` is the snapshot whose change asked for it. */
  datatype Action = Reconcile(key: Key, apex: Name) | Withdraw(key: Key, uid: string)

  /** `refused` are the apexes whose sole owner was last found invalid or without room. */
  datatype Watcher = Watcher(table: Table, maxZones: nat, store: map<Key, Snapshot>, pending: seq<Action>,
                             refused: set<Name>)

  // ---------- notifications ----------

  function Load(snapshot: Snapshot): seq<Action> {
    if snapshot.owned then [Reconcile(snapshot.key, Apex(snapshot.spec))] else [Withdraw(snapshot.key, snapshot.uid)]
  }

  /** A change of status only: the same object, owners and generation; without generations, the same specification. */
  predicate Skipped(before: Snapshot, after: Snapshot) {
    && before.uid == after.uid && before.owners == after.owners
    && ((before.generation > 0 && before.generation == after.generation)
        || (before.generation == 0 && before.spec == after.spec))
  }

  function OnUpdate(before: Snapshot, after: Snapshot): seq<Action> {
    if Skipped(before, after) then []
    else
      (if before.owned && (Apex(before.spec) != Apex(after.spec) || !after.owned)
       then [Reconcile(before.key, Apex(before.spec))] else [])
      + Load(after)
  }

  function OnDelete(snapshot: Snapshot): seq<Action> {
    if snapshot.owned then [Withdraw(snapshot.key, snapshot.uid), Reconcile(snapshot.key, Apex(snapshot.spec))] else []
  }

  // ---------- handling ----------

  /** The snapshots that own an apex, by the secondary index of the store. */
  function Owners(store: map<Key, Snapshot>, apex: Name): set<Key> {
    set k | k in store && store[k].owned && Apex(store[k].spec) == apex
  }

  /** The table and the refusals after an apex was reconciled with the store. */
  ghost predicate Reconciled(before: Watcher, apex: Name, table: Table, refused: set<Name>) {
    var owners := Owners(before.store, apex);
    if |owners| != 1 then
      table == Absent(before.table, apex, |owners| > 1) && refused == before.refused - {apex}
    else
      exists k :: k in owners
        && table == Replaced(before.table, before.maxZones, before.store[k])
        && refused == if OutcomeOf(before.table, before.maxZones, before.store[k]) in {NoRoom, Invalid}
                      then before.refused + {apex} else before.refused - {apex}
  }

  ghost predicate Handled(before: Watcher, after: Watcher) {
    && before.pending != []
    && after == before.(table := after.table, refused := after.refused, pending := before.pending[1..])
    && match before.pending[0]
       case Reconcile(key, apex) => Reconciled(before, apex, after.table, after.refused)
       case Withdraw(key, uid) => after.table == Removed(before.table, key, uid) && after.refused == before.refused
  }

  /** The same object at the same generation has the same specification and ownership. */
  predicate Admissible(store: map<Key, Snapshot>, snapshot: Snapshot) {
    snapshot.key in store ==>
      var before := store[snapshot.key];
      && (before.owners == snapshot.owners ==> before.owned == snapshot.owned)
      && (before.uid == snapshot.uid && before.generation == snapshot.generation > 0 ==> before.spec == snapshot.spec)
  }

  /** An object appears or changes in the store. */
  ghost predicate Stored(before: Watcher, snapshot: Snapshot, after: Watcher) {
    && Admissible(before.store, snapshot)
    && after == before.(
         store := before.store[snapshot.key := snapshot],
         pending := before.pending + if snapshot.key in before.store
                                     then OnUpdate(before.store[snapshot.key], snapshot) else Load(snapshot))
  }

  ghost predicate Deleted(before: Watcher, key: Key, after: Watcher) {
    && key in before.store
    && after == before.(store := before.store - {key}, pending := before.pending + OnDelete(before.store[key]))
  }

  ghost predicate Next(before: Watcher, after: Watcher) {
    || Handled(before, after)
    || (exists s :: Stored(before, s, after))
    || (exists k :: Deleted(before, k, after))
  }

  // ---------- the handlers as they run ----------

  class Handler {
    const index: ZoneIndex
    /** The informer store; handlers only read it. */
    var store: map<Key, Snapshot>
    ghost var refused: set<Name>

    ghost function Value(pending: seq<Action>): Watcher
      reads this, index
    {
      Watcher(index.Value(), index.maxZones, store, pending, refused)
    }

    ghost predicate Valid()
      reads this, index
    {
      index.Valid()
    }

    constructor (index: ZoneIndex)
      ensures this.index == index && store == map[] && refused == {}
    {
      this.index := index;
      store, refused := map[], {};
    }

    method ReconcileApex(apex: Name, ghost pending: seq<Action>)
      requires Valid()
      modifies this`refused, index
      ensures Valid() && Reconciled(old(Value(pending)), apex, index.Value(), refused)
    {
      ghost var before := Value(pending);
      var owners := Owners(store, apex);
      if |owners| != 1 {
        index.ReconcileAbsent(apex, |owners| > 1);
        refused := refused - {apex};
        return;
      }
      var key :| key in owners;
      var outcome := index.Replace(store[key]);
      if outcome == NoRoom || outcome == Invalid {
        refused := refused + {apex};
      } else {
        refused := refused - {apex};
      }
      assert key in Owners(before.store, apex);
    }

    /** The body of a handler: its operations in order. */
    method Handle(action: Action)
      requires Valid()
      modifies this`refused, index
      ensures Valid() && Handled(old(Value([action])), Value([]))
    {
      match action
      case Reconcile(key, apex) =>
        ReconcileApex(apex, [action]);
      case Withdraw(key, uid) =>
        index.Remove(key, uid);
    }
  }

  // ---------- the invariant ----------

  ghost predicate Waiting(watcher: Watcher, key: Key, apex: Name) {
    Reconcile(key, apex) in watcher.pending
  }

  /** Some operation still to come reconciles the apex. */
  ghost predicate Dirty(watcher: Watcher, apex: Name) {
    exists key :: Waiting(watcher, key, apex)
  }

  /** The apex is arbitrated as the store demands. */
  ghost predicate Clean(watcher: Watcher, apex: Name) {
    var owners := Owners(watcher.store, apex);
    && (|owners| >= 2 ==> apex in watcher.table.blocked && apex !in watcher.table.zones)
    && (|owners| == 0 ==> apex !in watcher.table.blocked && apex !in watcher.table.zones)
    && (|owners| == 1 ==>
          && (apex in watcher.table.zones ==> watcher.table.zones[apex].key in owners)
          && (apex in watcher.table.blocked ==> apex in watcher.refused))
  }

  /** A served key that lost the apex, and any other owner of it, is still waiting to be reconciled. */
  ghost predicate Contested(watcher: Watcher, apex: Name) {
    apex in watcher.table.zones ==>
      var served, owners := watcher.table.zones[apex].key, Owners(watcher.store, apex);
      && (served !in owners ==> Waiting(watcher, served, apex))
      && forall x :: x in owners && x != served ==> Waiting(watcher, x, apex)
  }

  ghost predicate Invariant(watcher: Watcher) {
    && Consistent(watcher.table, watcher.maxZones)
    && (forall k :: k in watcher.store ==> watcher.store[k].key == k)
    && forall a :: (Clean(watcher, a) || Dirty(watcher, a)) && Contested(watcher, a)
  }

  // ---------- changes of the store ----------

  /** A change that alters the owners of an apex has an operation for that apex behind it. */
  ghost predicate Announced(before: map<Key, Snapshot>, after: map<Key, Snapshot>, added: seq<Action>) {
    forall k, a :: (k in Owners(before, a)) != (k in Owners(after, a)) ==> Reconcile(k, a) in added
  }

  lemma StoredIsAnnounced(store: map<Key, Snapshot>, snapshot: Snapshot)
    requires Admissible(store, snapshot) && forall k :: k in store ==> store[k].key == k
    ensures Announced(store, store[snapshot.key := snapshot],
                      if snapshot.key in store then OnUpdate(store[snapshot.key], snapshot) else Load(snapshot))
  {
  }

  lemma DeletedIsAnnounced(store: map<Key, Snapshot>, key: Key)
    requires key in store && forall k :: k in store ==> store[k].key == k
    ensures Announced(store, store - {key}, OnDelete(store[key]))
  {
  }

  lemma ChangeKeepsInvariant(before: Watcher, after: Watcher, added: seq<Action>)
    requires Invariant(before)
    requires after == before.(store := after.store, pending := before.pending + added)
    requires Announced(before.store, after.store, added) && forall k :: k in after.store ==> after.store[k].key == k
    ensures Invariant(after)
  {
    forall a
      ensures (Clean(after, a) || Dirty(after, a)) && Contested(after, a)
    {
      ChangeAtApex(before, after, added, a);
    }
  }

  lemma ChangeAtApex(before: Watcher, after: Watcher, added: seq<Action>, apex: Name)
    requires (Clean(before, apex) || Dirty(before, apex)) && Contested(before, apex)
    requires after == before.(store := after.store, pending := before.pending + added)
    requires Announced(before.store, after.store, added)
    ensures (Clean(after, apex) || Dirty(after, apex)) && Contested(after, apex)
  {
    var left, right := Owners(before.store, apex), Owners(after.store, apex);
    if left == right {
      if Dirty(before, apex) {
        var k :| Waiting(before, k, apex);
        assert Waiting(after, k, apex);
      }
    } else {
      var k :| (k in left) != (k in right);
      assert Waiting(after, k, apex);
    }
  }

  // ---------- handling ----------

  /** An operation leaves every apex it does not reconcile as it was, except that it may no longer be served. */
  lemma ElsewhereKept(before: Watcher, after: Watcher, apex: Name)
    requires (Clean(before, apex) || Dirty(before, apex)) && Contested(before, apex)
    requires before.pending != [] && !(before.pending[0].Reconcile? && before.pending[0].apex == apex)
    requires after.pending == before.pending[1..] && after.store == before.store
    requires apex in after.table.zones ==>
      apex in before.table.zones && after.table.zones[apex] == before.table.zones[apex]
    requires apex in after.table.blocked <==> apex in before.table.blocked
    requires apex in after.refused <==> apex in before.refused
    ensures (Clean(after, apex) || Dirty(after, apex)) && Contested(after, apex)
  {
    if Dirty(before, apex) {
      var k :| Waiting(before, k, apex);
      StillWaiting(before, after, k, apex);
    }
    if apex in after.table.zones {
      var served := after.table.zones[apex].key;
      forall x | Waiting(before, x, apex)
        ensures Waiting(after, x, apex)
      {
        StillWaiting(before, after, x, apex);
      }
    }
  }

  lemma StillWaiting(before: Watcher, after: Watcher, key: Key, apex: Name)
    requires Waiting(before, key, apex) && before.pending != [] && after.pending == before.pending[1..]
    requires before.pending[0] != Reconcile(key, apex)
    ensures Waiting(after, key, apex)
  {
    var i :| 0 <= i < |before.pending| && before.pending[i] == Reconcile(key, apex);
    assert after.pending[i - 1] == before.pending[i];
  }

  /**
   Reconciling an apex arbitrates it, unless it meets a served snapshot that has left: then another operation is
   waiting.
   */
  lemma ReconciledApex(before: Watcher, after: Watcher)
    requires Consistent(before.table, before.maxZones) && forall k :: k in before.store ==> before.store[k].key == k
    requires Handled(before, after) && before.pending[0].Reconcile?
    requires Contested(before, before.pending[0].apex)
    ensures var apex := before.pending[0].apex;
      (Clean(after, apex) || Dirty(after, apex)) && Contested(after, apex)
  {
    var apex := before.pending[0].apex;
    var owners := Owners(before.store, apex);
    if |owners| == 1 {
      var k :| k in owners && after.table == Replaced(before.table, before.maxZones, before.store[k])
               && after.refused == if OutcomeOf(before.table, before.maxZones, before.store[k]) in {NoRoom, Invalid}
                                   then before.refused + {apex} else before.refused - {apex};
      OnlyOwner(owners, k);
      SoleOwnerReconciled(before, after, apex, k);
    }
  }

  lemma SoleOwnerReconciled(before: Watcher, after: Watcher, apex: Name, k: Key)
    requires Consistent(before.table, before.maxZones)
    requires before.pending != [] && before.pending[0].Reconcile? && before.pending[0].apex == apex
    requires after.pending == before.pending[1..] && after.store == before.store
    requires Contested(before, apex) && Owners(before.store, apex) == {k} && before.store[k].key == k
    requires after.table == Replaced(before.table, before.maxZones, before.store[k])
    requires after.refused == if OutcomeOf(before.table, before.maxZones, before.store[k]) in {NoRoom, Invalid}
                              then before.refused + {apex} else before.refused - {apex}
    ensures (Clean(after, apex) || Dirty(after, apex)) && Contested(after, apex)
  {
    if OutcomeOf(before.table, before.maxZones, before.store[k]).Conflict? {
      ConflictWaits(before, after, apex, k);
    }
  }

  lemma ConflictWaits(before: Watcher, after: Watcher, apex: Name, k: Key)
    requires before.pending != [] && before.pending[0].Reconcile? && after.pending == before.pending[1..]
    requires Contested(before, apex) && Owners(before.store, apex) == {k}
    requires apex in before.table.zones && before.table.zones[apex].key != k
    ensures Dirty(after, apex)
  {
    var served := before.table.zones[apex].key;
    assert Waiting(before, served, apex) && Waiting(before, k, apex);
    if before.pending[0].key == k {
      StillWaiting(before, after, served, apex);
    } else {
      StillWaiting(before, after, k, apex);
    }
  }

  lemma OnlyOwner(owners: set<Key>, key: Key)
    requires |owners| == 1 && key in owners
    ensures owners == {key}
  {
    assert |owners - {key}| == 0;
  }

  /** What an operation does to the other apexes. */
  lemma HandledElsewhere(before: Watcher, after: Watcher, apex: Name)
    requires Consistent(before.table, before.maxZones) && forall k :: k in before.store ==> before.store[k].key == k
    requires Handled(before, after) && !(before.pending[0].Reconcile? && before.pending[0].apex == apex)
    ensures apex in after.table.zones ==>
      apex in before.table.zones && after.table.zones[apex] == before.table.zones[apex]
    ensures apex in after.table.blocked <==> apex in before.table.blocked
    ensures apex in after.refused <==> apex in before.refused
  {
    match before.pending[0]
    case Withdraw(key, uid) =>
    case Reconcile(key, other) =>
      if |Owners(before.store, other)| == 1 {
        ReconciledElsewhere(before, other, after.table, after.refused, apex);
      }
  }

  lemma ReconciledElsewhere(before: Watcher, other: Name, table: Table, refused: set<Name>, apex: Name)
    requires Reconciled(before, other, table, refused) && |Owners(before.store, other)| == 1 && apex != other
    ensures apex in table.zones ==> apex in before.table.zones && table.zones[apex] == before.table.zones[apex]
    ensures apex in table.blocked <==> apex in before.table.blocked
    ensures apex in refused <==> apex in before.refused
  {
    var owner :| owner in Owners(before.store, other) && table == Replaced(before.table, before.maxZones,
        before.store[owner])
                 && (refused == before.refused + {other} || refused == before.refused - {other});
    ReplacedElsewhere(before.table, before.maxZones, before.store[owner], apex);
  }

  lemma HandledIsConsistent(before: Watcher, after: Watcher)
    requires Consistent(before.table, before.maxZones) && Handled(before, after)
    ensures Consistent(after.table, after.maxZones)
  {
    match before.pending[0]
    case Withdraw(key, uid) =>
      RemovalIsConsistent(before.table, before.maxZones,
                          if key in before.table.keys then before.table.keys[key] else Root);
    case Reconcile(key, apex) =>
      var owners := Owners(before.store, apex);
      if |owners| != 1 {
        AbsenceIsConsistent(before.table, before.maxZones, apex, |owners| > 1);
      } else {
        var owner :| owner in owners && after.table == Replaced(before.table, before.maxZones, before.store[owner]);
        ReplaceIsConsistent(before.table, before.maxZones, before.store[owner]);
      }
  }

  lemma HandledKeepsInvariant(before: Watcher, after: Watcher)
    requires Invariant(before) && Handled(before, after)
    ensures Invariant(after)
  {
    HandledIsConsistent(before, after);
    forall a
      ensures (Clean(after, a) || Dirty(after, a)) && Contested(after, a)
    {
      if before.pending[0].Reconcile? && before.pending[0].apex == a {
        ReconciledApex(before, after);
      } else {
        HandledElsewhere(before, after, a);
        ElsewhereKept(before, after, a);
      }
    }
  }

  /** Every step, whether of the store or of a handler, keeps the invariant. */
  lemma StepKeepsInvariant(before: Watcher, after: Watcher)
    requires Invariant(before) && Next(before, after)
    ensures Invariant(after)
  {
    if s :| Stored(before, s, after) {
      StoredIsAnnounced(before.store, s);
      ChangeKeepsInvariant(before, after, if s.key in before.store then OnUpdate(before.store[s.key], s) else Load(s));
    } else if k :| Deleted(before, k, after) {
      DeletedIsAnnounced(before.store, k);
      ChangeKeepsInvariant(before, after, OnDelete(before.store[k]));
    } else {
      HandledKeepsInvariant(before, after);
    }
  }

  // ---------- whole runs ----------

  ghost predicate Run(states: seq<Watcher>) {
    && states != []
    && states[0].table == Table(map[], {}, map[]) && states[0].store == map[] && states[0].pending == []
    && states[0].refused == {}
    && forall k :: 0 < k < |states| ==> Next(states[k - 1], states[k])
  }

  lemma {:induction false} RunKeepsInvariant(states: seq<Watcher>, k: nat)
    requires Run(states) && k < |states|
    ensures Invariant(states[k])
  {
    if k > 0 {
      RunKeepsInvariant(states, k - 1);
      StepKeepsInvariant(states[k - 1], states[k]);
    }
  }

  /**
   When every operation has been handled, in whatever order the store and the handlers moved: an apex with two or
   more owned snapshots is blocked and unserved, one without any is neither, a served apex is served for the
   key of its only owned snapshot, and a blocked apex has several owners or a sole owner that was refused.
   */
  lemma ArbitrationAtRest(states: seq<Watcher>, k: nat, apex: Name)
    requires Run(states) && k < |states| && states[k].pending == []
    ensures var owners, table := Owners(states[k].store, apex), states[k].table;
      && (|owners| >= 2 ==> apex in table.blocked && apex !in table.zones)
      && (|owners| == 0 ==> apex !in table.blocked && apex !in table.zones)
      && (apex in table.zones ==> owners == {table.zones[apex].key})
      && (apex in table.blocked ==> |owners| >= 2 || apex in states[k].refused)
  {
    RunKeepsInvariant(states, k);
    assert Clean(states[k], apex);
    var owners := Owners(states[k].store, apex);
    if apex in states[k].table.zones {
      OnlyOwner(owners, states[k].table.zones[apex].key);
    }
  }

  /** At rest no query below a contested apex is answered, not even from a zone above it. */
  lemma ContestedIsSilent(states: seq<Watcher>, k: nat, apex: Name, name: Name)
    requires Run(states) && k < |states| && states[k].pending == []
    requires |Owners(states[k].store, apex)| >= 2 && Closest(states[k].table.Index(), name, apex)
    ensures states[k].table.Index().Lookup(name).None?
  {
    ArbitrationAtRest(states, k, apex);
    var index := states[k].table.Index();
    LookupIsClosest(index, name);
    if index.Lookup(name).Some? {
      var a :| Closest(index, name, a) && a !in index.blocked;
      UnderDepth(a, apex);
      UnderDepth(apex, a);
    }
  }
}
