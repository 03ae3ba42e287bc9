/**
 Composition of a zone's record set ledger (core/controllers/zoneunit/zoneunit_controller.go).

 The new ledger is the predecessors still being deleted, the accepted items, and the items kept for
 record sets the zone no longer allows. Validation rules of the provider are an arbitrary predicate.
 */
module Ledger {
  import opened Names
  import opened Sequences

  datatype Key = Key(namespace: string, name: string)

  /** `payload` is the converted provider payload, or none when no served version or conversion exists. */
  datatype RecordSet = RecordSet(key: Key, uid: string, generation: int, name: string, kind: string, content: string,
                                 payload: Option<string>, deleting: bool)

  datatype Item = Item(key: Key, uid: string, generation: int, name: string, kind: string, content: string,
                       payload: string, deletionRequested: bool, allowed: Option<bool>)

  /** `coexists` switches the CNAME rule off for a pair, `passes` says that every validation rule accepts it. */
  datatype Rules = Rules(coexists: (Item, Item) -> bool, passes: (Item, Item) -> bool)

  /** `completed` says that the provider has finished deleting an incarnation. */
  datatype Context = Context(rules: Rules, completed: (Key, string) -> bool)

  predicate Conflict(rules: Rules, self: Item, other: Item) {
    && self.name == other.name
    && (|| self.kind == other.kind
        || (!rules.coexists(self, other) && (self.kind == "CNAME" || other.kind == "CNAME"))
        || !rules.passes(self, other))
  }

  function ItemOf(recordSet: RecordSet, payload: string): Item {
    Item(recordSet.key, recordSet.uid, recordSet.generation, recordSet.name, recordSet.kind, recordSet.content,
         payload, recordSet.deleting, None)
  }

  predicate SameUID(left: string, right: string) {
    left != "" && right != "" && left == right
  }

  predicate Matches(item: Item, recordSet: RecordSet) {
    SameUID(item.uid, recordSet.uid)
  }

  /** The item still asks for the deletion of an earlier incarnation of the record set. */
  predicate Predecessor(item: Item, recordSet: RecordSet) {
    item.deletionRequested && item.uid != "" && recordSet.uid != "" && item.uid != recordSet.uid
  }

  predicate SameSpec(left: Item, right: Item) {
    left.(generation := right.generation, allowed := right.allowed) == right
  }

  function ItemKey(item: Item): Key { item.key }

  function RecordSetKey(recordSet: RecordSet): Key { recordSet.key }

  // ---------- maps by key ----------

  function RecordSetsByKey(recordSets: seq<RecordSet>): map<Key, RecordSet> {
    if recordSets == [] then map[]
    else
      var last := recordSets[|recordSets| - 1];
      RecordSetsByKey(recordSets[..|recordSets| - 1])[last.key := last]
  }

  function ItemsByKey(items: seq<Item>): map<Key, Item> {
    if items == [] then map[]
    else
      var last := items[|items| - 1];
      ItemsByKey(items[..|items| - 1])[last.key := last]
  }

  method IndexRecordSets(recordSets: seq<RecordSet>) returns (index: map<Key, RecordSet>)
    ensures index == RecordSetsByKey(recordSets)
  {
    index := map[];
    var i := 0;
    while i < |recordSets|
      invariant 0 <= i <= |recordSets|
      invariant index == RecordSetsByKey(recordSets[..i])
    {
      assert recordSets[..i + 1][..i] == recordSets[..i];
      index := index[recordSets[i].key := recordSets[i]];
      i := i + 1;
    }
    assert recordSets[..i] == recordSets;
  }

  method IndexItems(items: seq<Item>) returns (index: map<Key, Item>)
    ensures index == ItemsByKey(items)
  {
    index := map[];
    var i := 0;
    while i < |items|
      invariant 0 <= i <= |items|
      invariant index == ItemsByKey(items[..i])
    {
      assert items[..i + 1][..i] == items[..i];
      index := index[items[i].key := items[i]];
      i := i + 1;
    }
    assert items[..i] == items;
  }

  // ---------- the three parts ----------

  predicate Retains(context: Context, current: map<Key, RecordSet>, item: Item) {
    && !(item.deletionRequested && context.completed(item.key, item.uid))
    && !(item.key in current && !Matches(item, current[item.key]) && (!item.deletionRequested || item.uid == ""))
  }

  function Retained(context: Context, recordSets: seq<RecordSet>, existing: seq<Item>): seq<Item> {
    Filter(existing, (item: Item) => Retains(context, RecordSetsByKey(recordSets), item))
  }

  method RetainedExistingItems(context: Context, recordSets: seq<RecordSet>, existing: seq<Item>)
    returns (items: seq<Item>)
    ensures items == Retained(context, recordSets, existing)
  {
    var current := IndexRecordSets(recordSets);
    items := [];
    var i := 0;
    while i < |existing|
      invariant 0 <= i <= |existing|
      invariant items == Retained(context, recordSets, existing[..i])
    {
      assert existing[..i + 1][..i] == existing[..i];
      var item := existing[i];
      if Retains(context, current, item) {
        items := items + [item];
      }
      i := i + 1;
    }
    assert existing[..i] == existing;
  }

  predicate Pending(context: Context, current: map<Key, RecordSet>, item: Item) {
    item.key in current && Predecessor(item, current[item.key]) && !context.completed(item.key, item.uid)
  }

  function Predecessors(context: Context, recordSets: seq<RecordSet>, existing: seq<Item>): seq<Item> {
    Filter(existing, (item: Item) => Pending(context, RecordSetsByKey(recordSets), item))
  }

  method PendingPredecessorItems(context: Context, recordSets: seq<RecordSet>, existing: seq<Item>)
    returns (items: seq<Item>)
    ensures items == Predecessors(context, recordSets, existing)
  {
    var current := IndexRecordSets(recordSets);
    items := [];
    var i := 0;
    while i < |existing|
      invariant 0 <= i <= |existing|
      invariant items == Predecessors(context, recordSets, existing[..i])
    {
      assert existing[..i + 1][..i] == existing[..i];
      if Pending(context, current, existing[i]) {
        items := items + [existing[i]];
      }
      i := i + 1;
    }
    assert existing[..i] == existing;
  }

  /** What is kept of a record set the zone does not allow. */
  function Kept(context: Context, stored: map<Key, Item>, recordSet: RecordSet): seq<Item> {
    if recordSet.key !in stored then []
    else
      var existing := stored[recordSet.key];
      if recordSet.deleting && context.completed(recordSet.key, recordSet.uid) then []
      else if Matches(existing, recordSet) then
        [existing.(allowed := Some(false), deletionRequested := recordSet.deleting)]
      else if Predecessor(existing, recordSet) && !context.completed(recordSet.key, existing.uid) then []
      else if recordSet.deleting then [ItemOf(recordSet, "").(allowed := Some(false))]
      else []
  }

  function NotAllowed(context: Context, rejected: seq<RecordSet>, stored: map<Key, Item>): seq<Item> {
    if rejected == [] then []
    else NotAllowed(context, rejected[..|rejected| - 1], stored) + Kept(context, stored, rejected[|rejected| - 1])
  }

  method RetainedNotAllowedItems(context: Context, rejected: seq<RecordSet>, existing: seq<Item>)
    returns (items: seq<Item>)
    ensures items == NotAllowed(context, rejected, ItemsByKey(existing))
  {
    var stored := IndexItems(existing);
    items := [];
    var i := 0;
    while i < |rejected|
      invariant 0 <= i <= |rejected|
      invariant items == NotAllowed(context, rejected[..i], stored)
    {
      assert rejected[..i + 1][..i] == rejected[..i];
      var recordSet := rejected[i];
      i := i + 1;
      if recordSet.key !in stored {
        continue;
      }
      var item := stored[recordSet.key];
      if recordSet.deleting && context.completed(recordSet.key, recordSet.uid) {
        continue;
      }
      if !Matches(item, recordSet) {
        if Predecessor(item, recordSet) && !context.completed(recordSet.key, item.uid) {
          continue;
        }
        if recordSet.deleting {
          items := items + [ItemOf(recordSet, "").(allowed := Some(false))];
        }
        continue;
      }
      items := items + [item.(allowed := Some(false), deletionRequested := recordSet.deleting)];
    }
    assert rejected[..i] == rejected;
  }

  // ---------- acceptance ----------

  predicate DeletionPending(context: Context, recordSet: RecordSet) {
    recordSet.deleting && !context.completed(recordSet.key, recordSet.uid)
  }

  /** The claim a deleting record set still has on its name. */
  function DeletionItem(stored: map<Key, Item>, recordSet: RecordSet): Item {
    if recordSet.key in stored && Matches(stored[recordSet.key], recordSet) then stored[recordSet.key]
    else Item(recordSet.key, recordSet.uid, recordSet.generation, recordSet.name, recordSet.kind, "", "", false, None)
  }

  function DeletionItems(context: Context, recordSets: seq<RecordSet>, stored: map<Key, Item>): seq<Item> {
    if recordSets == [] then []
    else
      var last := recordSets[|recordSets| - 1];
      DeletionItems(context, recordSets[..|recordSets| - 1], stored)
      + if DeletionPending(context, last) then [DeletionItem(stored, last)] else []
  }

  method PendingDeletionItems(context: Context, recordSets: seq<RecordSet>, stored: map<Key, Item>)
    returns (items: seq<Item>)
    ensures items == DeletionItems(context, recordSets, stored)
  {
    items := [];
    var i := 0;
    while i < |recordSets|
      invariant 0 <= i <= |recordSets|
      invariant items == DeletionItems(context, recordSets[..i], stored)
    {
      assert recordSets[..i + 1][..i] == recordSets[..i];
      if DeletionPending(context, recordSets[i]) {
        items := items + [DeletionItem(stored, recordSets[i])];
      }
      i := i + 1;
    }
    assert recordSets[..i] == recordSets;
  }

  /** Some owner with another key conflicts with the item. */
  predicate Contested(rules: Rules, item: Item, owners: seq<Item>) {
    exists o :: o in owners && o.key != item.key && Conflict(rules, item, o)
  }

  method HasConflictingOwner(rules: Rules, item: Item, owners: seq<Item>) returns (found: bool)
    ensures found == Contested(rules, item, owners)
  {
    var i := 0;
    while i < |owners|
      invariant 0 <= i <= |owners|
      invariant forall j :: 0 <= j < i ==> !(owners[j].key != item.key && Conflict(rules, item, owners[j]))
    {
      if owners[i].key != item.key && Conflict(rules, item, owners[i]) {
        return true;
      }
      i := i + 1;
    }
    found := false;
  }

  /** Everything the acceptance loop reads but does not change. */
  datatype Frame = Frame(context: Context, stored: map<Key, Item>, deletions: seq<Item>)

  predicate Admits(frame: Frame, recordSet: RecordSet, accepted: seq<Item>)
    requires recordSet.payload.Some?
  {
    var item := ItemOf(recordSet, recordSet.payload.value);
    && !(recordSet.deleting && frame.context.completed(recordSet.key, recordSet.uid))
    && !(recordSet.key in frame.stored && Predecessor(frame.stored[recordSet.key], recordSet))
    && (!recordSet.deleting ==>
          && (recordSet.key in frame.stored ==> SameSpec(frame.stored[recordSet.key], item))
          && !Contested(frame.context.rules, item, frame.deletions))
    && !Contested(frame.context.rules, item, accepted)
  }

  function Offer(frame: Frame, recordSet: RecordSet, accepted: seq<Item>): seq<Item> {
    if recordSet.payload.Some? && Admits(frame, recordSet, accepted) then [ItemOf(recordSet, recordSet.payload.value)]
    else []
  }

  /** The items accepted so far, on top of the owners already there. */
  function Accept(frame: Frame, owners: seq<Item>, recordSets: seq<RecordSet>): seq<Item> {
    if recordSets == [] then []
    else
      var items := Accept(frame, owners, recordSets[..|recordSets| - 1]);
      items + Offer(frame, recordSets[|recordSets| - 1], owners + items)
  }

  /** A stable sort that puts pending deletions first. */
  function DeletionsFirst(context: Context, recordSets: seq<RecordSet>): seq<RecordSet> {
    Filter(recordSets, (r: RecordSet) => DeletionPending(context, r))
    + Filter(recordSets, (r: RecordSet) => !DeletionPending(context, r))
  }

  function FrameOf(context: Context, recordSets: seq<RecordSet>, existing: seq<Item>): Frame {
    var stored := ItemsByKey(Retained(context, recordSets, existing));
    Frame(context, stored, DeletionItems(context, recordSets, stored))
  }

  /** The retained items that no pending deletion displaces. */
  function OwnersOf(context: Context, recordSets: seq<RecordSet>, existing: seq<Item>): seq<Item> {
    var frame := FrameOf(context, recordSets, existing);
    Filter(Retained(context, recordSets, existing), (item: Item) => !Contested(context.rules, item, frame.deletions))
  }

  function Accepted(context: Context, recordSets: seq<RecordSet>, existing: seq<Item>): seq<Item> {
    Accept(FrameOf(context, recordSets, existing), OwnersOf(context, recordSets, existing),
           DeletionsFirst(context, recordSets))
  }

  method AcceptedRecordSetItems(context: Context, recordSets: seq<RecordSet>, existing: seq<Item>)
    returns (items: seq<Item>)
    ensures items == Accepted(context, recordSets, existing)
  {
    var retained := RetainedExistingItems(context, recordSets, existing);
    var stored := IndexItems(retained);
    var deletions := PendingDeletionItems(context, recordSets, stored);
    var owners := Undisplaced(context, retained, deletions);
    items := AcceptLoop(Frame(context, stored, deletions), owners, DeletionsFirst(context, recordSets));
  }

  method Undisplaced(context: Context, retained: seq<Item>, deletions: seq<Item>) returns (owners: seq<Item>)
    ensures owners == Filter(retained, (item: Item) => !Contested(context.rules, item, deletions))
  {
    owners := [];
    var i := 0;
    while i < |retained|
      invariant 0 <= i <= |retained|
      invariant owners == Filter(retained[..i], (item: Item) => !Contested(context.rules, item, deletions))
    {
      assert retained[..i + 1][..i] == retained[..i];
      var displaced := HasConflictingOwner(context.rules, retained[i], deletions);
      if !displaced {
        owners := owners + [retained[i]];
      }
      i := i + 1;
    }
    assert retained[..i] == retained;
  }

  method AcceptLoop(frame: Frame, owners: seq<Item>, recordSets: seq<RecordSet>) returns (items: seq<Item>)
    ensures items == Accept(frame, owners, recordSets)
  {
    items := [];
    var accepted := owners;
    var i := 0;
    while i < |recordSets|
      invariant 0 <= i <= |recordSets|
      invariant items == Accept(frame, owners, recordSets[..i]) && accepted == owners + items
    {
      assert recordSets[..i + 1][..i] == recordSets[..i];
      var admitted := Admit(frame, recordSets[i], accepted);
      if admitted {
        var item := ItemOf(recordSets[i], recordSets[i].payload.value);
        items := items + [item];
        accepted := accepted + [item];
      }
      i := i + 1;
    }
    assert recordSets[..i] == recordSets;
  }

  method Admit(frame: Frame, recordSet: RecordSet, accepted: seq<Item>) returns (admitted: bool)
    ensures admitted <==> recordSet.payload.Some? && Admits(frame, recordSet, accepted)
  {
    if recordSet.payload.None? {
      return false;
    }
    var item := ItemOf(recordSet, recordSet.payload.value);
    if recordSet.deleting && frame.context.completed(recordSet.key, recordSet.uid) {
      return false;
    }
    if recordSet.key in frame.stored && Predecessor(frame.stored[recordSet.key], recordSet) {
      return false;
    }
    if !recordSet.deleting {
      if recordSet.key in frame.stored && !SameSpec(frame.stored[recordSet.key], item) {
        return false;
      }
      var blocked := HasConflictingOwner(frame.context.rules, item, frame.deletions);
      if blocked {
        return false;
      }
    }
    var owned := HasConflictingOwner(frame.context.rules, item, accepted);
    admitted := !owned;
  }

  // ---------- the composed ledger ----------

  /** Which record sets the zone allows, and which of those the provider can serve. */
  datatype Screening = Screening(allowed: RecordSet -> bool, supported: RecordSet -> bool)

  function Supported(screening: Screening, recordSets: seq<RecordSet>): seq<RecordSet> {
    Filter(recordSets, (r: RecordSet) => screening.allowed(r) && screening.supported(r))
  }

  function Rejected(screening: Screening, recordSets: seq<RecordSet>): seq<RecordSet> {
    Filter(recordSets, (r: RecordSet) => !screening.allowed(r))
  }

  function Compose(context: Context, screening: Screening, recordSets: seq<RecordSet>, existing: seq<Item>): seq<Item> {
    Predecessors(context, recordSets, existing)
    + Accepted(context, Supported(screening, recordSets), existing)
    + NotAllowed(context, Rejected(screening, recordSets), ItemsByKey(existing))
  }

  method ComposeLedger(context: Context, screening: Screening, recordSets: seq<RecordSet>, existing: seq<Item>)
    returns (items: seq<Item>)
    ensures items == Compose(context, screening, recordSets, existing)
  {
    items := AcceptedRecordSetItems(context, Supported(screening, recordSets), existing);
    var pending := PendingPredecessorItems(context, recordSets, existing);
    var kept := RetainedNotAllowedItems(context, Rejected(screening, recordSets), existing);
    items := pending + items;
    items := items + kept;
  }

  // ---------- keys ----------

  ghost predicate UniqueKeys(items: seq<Item>) {
    DistinctBy(items, ItemKey)
  }

  ghost predicate UniqueRecordSets(recordSets: seq<RecordSet>) {
    DistinctBy(recordSets, RecordSetKey)
  }

  lemma {:induction false} ByKeyFinds(recordSets: seq<RecordSet>, recordSet: RecordSet)
    requires UniqueRecordSets(recordSets) && recordSet in recordSets
    ensures recordSet.key in RecordSetsByKey(recordSets) && RecordSetsByKey(recordSets)[recordSet.key] == recordSet
  {
    var rest, last := recordSets[..|recordSets| - 1], recordSets[|recordSets| - 1];
    if recordSet != last {
      assert recordSets == rest + [last];
      assert recordSet in rest;
      ByKeyFinds(rest, recordSet);
      var i :| 0 <= i < |rest| && rest[i] == recordSet;
      assert RecordSetKey(recordSets[i]) != RecordSetKey(recordSets[|rest|]);
    }
  }

  lemma {:induction false} ByKeyIsMember(recordSets: seq<RecordSet>, key: Key)
    ensures key in RecordSetsByKey(recordSets) ==>
      RecordSetsByKey(recordSets)[key] in recordSets && RecordSetsByKey(recordSets)[key].key == key
  {
    if recordSets != [] {
      ByKeyIsMember(recordSets[..|recordSets| - 1], key);
    }
  }

  lemma {:induction false} ItemByKeyFinds(items: seq<Item>, item: Item)
    requires UniqueKeys(items) && item in items
    ensures item.key in ItemsByKey(items) && ItemsByKey(items)[item.key] == item
  {
    var rest, last := items[..|items| - 1], items[|items| - 1];
    if item != last {
      assert items == rest + [last];
      assert item in rest;
      ItemByKeyFinds(rest, item);
      var i :| 0 <= i < |rest| && rest[i] == item;
      assert ItemKey(items[i]) != ItemKey(items[|rest|]);
    }
  }

  lemma {:induction false} ItemByKeyIsMember(items: seq<Item>, key: Key)
    ensures key in ItemsByKey(items) ==> ItemsByKey(items)[key] in items && ItemsByKey(items)[key].key == key
  {
    if items != [] {
      ItemByKeyIsMember(items[..|items| - 1], key);
    }
  }

  /** Every kept item comes from a record set that is not allowed. */
  lemma {:induction false} NotAllowedItem(context: Context, rejected: seq<RecordSet>, stored: map<Key, Item>,
                                          item: Item)
    returns (recordSet: RecordSet)
    requires item in NotAllowed(context, rejected, stored)
    ensures recordSet in rejected && Kept(context, stored, recordSet) == [item]
  {
    var rest, last := rejected[..|rejected| - 1], rejected[|rejected| - 1];
    if item in Kept(context, stored, last) {
      recordSet := last;
    } else {
      recordSet := NotAllowedItem(context, rest, stored, item);
    }
  }

  lemma KeptHasKey(context: Context, stored: map<Key, Item>, recordSet: RecordSet, item: Item)
    requires (forall k :: k in stored ==> stored[k].key == k) && item in Kept(context, stored, recordSet)
    ensures item.key == recordSet.key
  {
  }

  lemma {:induction false} NotAllowedKeys(context: Context, rejected: seq<RecordSet>, stored: map<Key, Item>)
    requires UniqueRecordSets(rejected) && forall k :: k in stored ==> stored[k].key == k
    ensures UniqueKeys(NotAllowed(context, rejected, stored))
  {
    if rejected != [] {
      var rest, last := rejected[..|rejected| - 1], rejected[|rejected| - 1];
      NotAllowedKeys(context, rest, stored);
      forall x, y | x in NotAllowed(context, rest, stored) && y in Kept(context, stored, last)
        ensures ItemKey(x) != ItemKey(y)
      {
        var r := NotAllowedItem(context, rest, stored, x);
        KeptHasKey(context, stored, r, x);
        KeptHasKey(context, stored, last, y);
        EarlierKey(rejected, r);
      }
      UniqueAppend(NotAllowed(context, rest, stored), Kept(context, stored, last));
    }
  }

  lemma EarlierKey(recordSets: seq<RecordSet>, recordSet: RecordSet)
    requires UniqueRecordSets(recordSets) && recordSets != [] && recordSet in recordSets[..|recordSets| - 1]
    ensures recordSet.key != recordSets[|recordSets| - 1].key
  {
    var i :| 0 <= i < |recordSets| - 1 && recordSets[i] == recordSet;
    assert RecordSetKey(recordSets[i]) != RecordSetKey(recordSets[|recordSets| - 1]);
  }

  lemma UniqueAppend(left: seq<Item>, right: seq<Item>)
    requires UniqueKeys(left) && UniqueKeys(right)
    requires forall x, y :: x in left && y in right ==> ItemKey(x) != ItemKey(y)
    ensures UniqueKeys(left + right)
  {
  }

  /** Each accepted item is that of one offered record set, admitted against the items before it. */
  lemma {:induction false} AcceptKeys(frame: Frame, owners: seq<Item>, recordSets: seq<RecordSet>)
    requires UniqueRecordSets(recordSets)
    ensures UniqueKeys(Accept(frame, owners, recordSets))
    ensures forall x :: x in Accept(frame, owners, recordSets) ==>
      exists r :: r in recordSets && Offered(frame, owners, r, x)
  {
    if recordSets != [] {
      var rest, last := recordSets[..|recordSets| - 1], recordSets[|recordSets| - 1];
      AcceptKeys(frame, owners, rest);
      assert recordSets == rest + [last];
      var items := Accept(frame, owners, rest);
      forall x, y | x in items && y in Offer(frame, last, owners + items)
        ensures ItemKey(x) != ItemKey(y)
      {
        var r :| r in rest && Offered(frame, owners, r, x);
        var i :| 0 <= i < |rest| && rest[i] == r;
        assert RecordSetKey(recordSets[i]) != RecordSetKey(recordSets[|rest|]);
      }
      forall x | x in Offer(frame, last, owners + items)
        ensures Offered(frame, owners, last, x)
      {
        assert forall o :: o in owners ==> o in owners + items;
      }
    }
  }

  /** The item is that of the record set, which was admitted at least against the owners. */
  predicate Offered(frame: Frame, owners: seq<Item>, recordSet: RecordSet, item: Item) {
    recordSet.payload.Some? && item == ItemOf(recordSet, recordSet.payload.value) && Admits(frame, recordSet, owners)
  }

  lemma OrderedRecordSets(context: Context, recordSets: seq<RecordSet>)
    requires UniqueRecordSets(recordSets)
    ensures UniqueRecordSets(DeletionsFirst(context, recordSets))
    ensures forall r :: r in DeletionsFirst(context, recordSets) <==> r in recordSets
  {
    var first, second := (r: RecordSet) => DeletionPending(context, r), (r: RecordSet) => !DeletionPending(context, r);
    FilterDistinctBy(recordSets, first, RecordSetKey);
    FilterDistinctBy(recordSets, second, RecordSetKey);
    FilterMembers(recordSets, first);
    FilterMembers(recordSets, second);
    forall x, y | x in Filter(recordSets, first) && y in Filter(recordSets, second)
      ensures RecordSetKey(x) != RecordSetKey(y)
    {
      DifferentKeys(recordSets, x, y);
    }
  }

  lemma DifferentKeys(recordSets: seq<RecordSet>, left: RecordSet, right: RecordSet)
    requires UniqueRecordSets(recordSets) && left in recordSets && right in recordSets && left != right
    ensures left.key != right.key
  {
    ByKeyFinds(recordSets, left);
    ByKeyFinds(recordSets, right);
  }

  /** What is known of an accepted item. */
  lemma AcceptedItem(context: Context, recordSets: seq<RecordSet>, existing: seq<Item>, item: Item)
    returns (recordSet: RecordSet)
    requires UniqueRecordSets(recordSets) && item in Accepted(context, recordSets, existing)
    ensures recordSet in recordSets && recordSet.key == item.key
    ensures Offered(FrameOf(context, recordSets, existing), OwnersOf(context, recordSets, existing), recordSet, item)
  {
    OrderedRecordSets(context, recordSets);
    var frame, owners := FrameOf(context, recordSets, existing), OwnersOf(context, recordSets, existing);
    AcceptKeys(frame, owners, DeletionsFirst(context, recordSets));
    recordSet :| recordSet in DeletionsFirst(context, recordSets) && Offered(frame, owners, recordSet, item);
  }

  lemma PredecessorItem(context: Context, recordSets: seq<RecordSet>, existing: seq<Item>, item: Item)
    requires item in Predecessors(context, recordSets, existing)
    ensures item in existing && Pending(context, RecordSetsByKey(recordSets), item)
  {
    FilterMembers(existing, (x: Item) => Pending(context, RecordSetsByKey(recordSets), x));
  }

  /**
   A waiting predecessor is retained whatever part of the record sets is looked at, and keeps its key from being
   accepted.
   */
  lemma PredecessorRetained(context: Context, recordSets: seq<RecordSet>, part: seq<RecordSet>, existing: seq<Item>,
                            item: Item)
    requires item in Predecessors(context, recordSets, existing)
    requires UniqueRecordSets(recordSets) && forall r :: r in part ==> r in recordSets
    ensures item in Retained(context, part, existing)
  {
    PredecessorItem(context, recordSets, existing, item);
    FilterMembers(existing, (x: Item) => Retains(context, RecordSetsByKey(part), x));
    ByKeyIsMember(part, item.key);
    if item.key in RecordSetsByKey(part) {
      ByKeyFinds(recordSets, RecordSetsByKey(part)[item.key]);
    }
  }

  lemma RetainedKeys(context: Context, recordSets: seq<RecordSet>, existing: seq<Item>)
    requires UniqueKeys(existing)
    ensures UniqueKeys(Retained(context, recordSets, existing))
    ensures forall x :: x in Retained(context, recordSets, existing) ==> x in existing
  {
    FilterDistinctBy(existing, (x: Item) => Retains(context, RecordSetsByKey(recordSets), x), ItemKey);
    FilterMembers(existing, (x: Item) => Retains(context, RecordSetsByKey(recordSets), x));
  }

  lemma PredecessorNotAccepted(context: Context, recordSets: seq<RecordSet>, part: seq<RecordSet>,
                               existing: seq<Item>, item: Item, accepted: Item)
    requires UniqueRecordSets(recordSets) && UniqueRecordSets(part) && UniqueKeys(existing)
    requires forall r :: r in part ==> r in recordSets
    requires item in Predecessors(context, recordSets, existing) && accepted in Accepted(context, part, existing)
    ensures item.key != accepted.key
  {
    PredecessorItem(context, recordSets, existing, item);
    PredecessorRetained(context, recordSets, part, existing, item);
    RetainedKeys(context, part, existing);
    ItemByKeyFinds(Retained(context, part, existing), item);
    var recordSet := AcceptedItem(context, part, existing, accepted);
    ByKeyFinds(recordSets, recordSet);
  }

  lemma ScreenedRecordSets(screening: Screening, recordSets: seq<RecordSet>)
    requires UniqueRecordSets(recordSets)
    ensures UniqueRecordSets(Supported(screening, recordSets)) && UniqueRecordSets(Rejected(screening, recordSets))
    ensures forall r :: r in Supported(screening, recordSets) ==> r in recordSets && screening.allowed(r)
    ensures forall r :: r in Rejected(screening, recordSets) ==> r in recordSets && !screening.allowed(r)
  {
    var supported := (r: RecordSet) => screening.allowed(r) && screening.supported(r);
    var rejected := (r: RecordSet) => !screening.allowed(r);
    FilterDistinctBy(recordSets, supported, RecordSetKey);
    FilterDistinctBy(recordSets, rejected, RecordSetKey);
    FilterMembers(recordSets, supported);
    FilterMembers(recordSets, rejected);
  }

  lemma KeptItem(context: Context, rejected: seq<RecordSet>, existing: seq<Item>, item: Item)
    returns (recordSet: RecordSet)
    requires item in NotAllowed(context, rejected, ItemsByKey(existing))
    ensures recordSet in rejected && recordSet.key == item.key
    ensures Kept(context, ItemsByKey(existing), recordSet) == [item]
  {
    forall k | k in ItemsByKey(existing)
      ensures ItemsByKey(existing)[k].key == k
    {
      ItemByKeyIsMember(existing, k);
    }
    recordSet := NotAllowedItem(context, rejected, ItemsByKey(existing), item);
    KeptHasKey(context, ItemsByKey(existing), recordSet, item);
  }

  /** The keys of the composed ledger are unique: its three parts share none. */
  lemma KeysStayUnique(context: Context, screening: Screening, recordSets: seq<RecordSet>, existing: seq<Item>)
    requires UniqueRecordSets(recordSets) && UniqueKeys(existing)
    ensures UniqueKeys(Compose(context, screening, recordSets, existing))
  {
    var supported, rejected := Supported(screening, recordSets), Rejected(screening, recordSets);
    var pending, accepted := Predecessors(context, recordSets, existing), Accepted(context, supported, existing);
    var kept := NotAllowed(context, rejected, ItemsByKey(existing));
    ScreenedRecordSets(screening, recordSets);
    PartsAreUnique(context, recordSets, supported, rejected, existing);
    forall x, y | x in pending && y in accepted
      ensures ItemKey(x) != ItemKey(y)
    {
      PredecessorNotAccepted(context, recordSets, supported, existing, x, y);
    }
    forall x, y | x in pending + accepted && y in kept
      ensures ItemKey(x) != ItemKey(y)
    {
      if x in pending {
        PredecessorNotKept(context, recordSets, rejected, existing, x, y);
      } else {
        var r := AcceptedItem(context, supported, existing, x);
        var s := KeptItem(context, rejected, existing, y);
        DifferentKeys(recordSets, r, s);
      }
    }
  }

  lemma PartsAreUnique(context: Context, recordSets: seq<RecordSet>, supported: seq<RecordSet>,
                       rejected: seq<RecordSet>, existing: seq<Item>)
    requires UniqueRecordSets(supported) && UniqueRecordSets(rejected) && UniqueKeys(existing)
    ensures UniqueKeys(Predecessors(context, recordSets, existing))
    ensures UniqueKeys(Accepted(context, supported, existing))
    ensures UniqueKeys(NotAllowed(context, rejected, ItemsByKey(existing)))
  {
    FilterDistinctBy(existing, (x: Item) => Pending(context, RecordSetsByKey(recordSets), x), ItemKey);
    OrderedRecordSets(context, supported);
    AcceptKeys(FrameOf(context, supported, existing), OwnersOf(context, supported, existing),
               DeletionsFirst(context, supported));
    forall k | k in ItemsByKey(existing)
      ensures ItemsByKey(existing)[k].key == k
    {
      ItemByKeyIsMember(existing, k);
    }
    NotAllowedKeys(context, rejected, ItemsByKey(existing));
  }

  lemma PredecessorNotKept(context: Context, recordSets: seq<RecordSet>, rejected: seq<RecordSet>,
                           existing: seq<Item>, item: Item, kept: Item)
    requires UniqueRecordSets(recordSets) && UniqueRecordSets(rejected) && UniqueKeys(existing)
    requires forall r :: r in rejected ==> r in recordSets
    requires item in Predecessors(context, recordSets, existing)
    requires kept in NotAllowed(context, rejected, ItemsByKey(existing))
    ensures item.key != kept.key
  {
    PredecessorItem(context, recordSets, existing, item);
    ItemByKeyFinds(existing, item);
    var recordSet := KeptItem(context, rejected, existing, kept);
    ByKeyFinds(recordSets, recordSet);
  }

  // ---------- conflicts ----------

  ghost predicate LaterFree(rules: Rules, items: seq<Item>) {
    forall i: nat, j: nat :: i < j < |items| ==> ClearOf(rules, items[j], items[i])
  }

  predicate ClearOf(rules: Rules, item: Item, other: Item) {
    !Conflict(rules, item, other)
  }

  /** No accepted item conflicts with one accepted before it. */
  lemma {:induction false} AcceptIsConflictFree(frame: Frame, owners: seq<Item>, recordSets: seq<RecordSet>)
    requires UniqueRecordSets(recordSets)
    ensures LaterFree(frame.context.rules, Accept(frame, owners, recordSets))
  {
    if recordSets != [] {
      var rest, last := recordSets[..|recordSets| - 1], recordSets[|recordSets| - 1];
      AcceptIsConflictFree(frame, owners, rest);
      AcceptKeys(frame, owners, recordSets);
      var items := Accept(frame, owners, rest);
      var offer := Offer(frame, last, owners + items);
      if offer != [] {
        var all := items + offer;
        forall x | x in items
          ensures ClearOf(frame.context.rules, offer[0], x)
        {
          var i :| 0 <= i < |items| && items[i] == x;
          assert all[i] == x && all[|items|] == offer[0] && ItemKey(all[i]) != ItemKey(all[|items|]);
          assert x in owners + items;
        }
        assert items + offer == items + [offer[0]];
      }
    }
  }

  /** Accepted items are pairwise free of conflict: none conflicts with one accepted before it. */
  lemma AcceptedIsConflictFree(context: Context, recordSets: seq<RecordSet>, existing: seq<Item>, i: nat, j: nat)
    requires UniqueRecordSets(recordSets) && i < j < |Accepted(context, recordSets, existing)|
    ensures var items := Accepted(context, recordSets, existing);
      items[i].key != items[j].key && !Conflict(context.rules, items[j], items[i])
  {
    var frame, owners := FrameOf(context, recordSets, existing), OwnersOf(context, recordSets, existing);
    OrderedRecordSets(context, recordSets);
    AcceptKeys(frame, owners, DeletionsFirst(context, recordSets));
    AcceptIsConflictFree(frame, owners, DeletionsFirst(context, recordSets));
    var items := Accepted(context, recordSets, existing);
    assert LaterFree(context.rules, items);
    assert ItemKey(items[i]) != ItemKey(items[j]) && ClearOf(context.rules, items[j], items[i]);
  }

  ghost predicate ConflictFree(rules: Rules, items: seq<Item>) {
    forall x, y :: x in items && y in items && x.key != y.key ==> !Conflict(rules, x, y)
  }

  predicate SameClaim(left: Item, right: Item) {
    left.name == right.name && left.kind == right.kind
  }

  /** The verdict on a pair is the same both ways and depends on owner name and type only. */
  ghost predicate Symmetric(rules: Rules) {
    && (forall x, y :: SameBothWays(rules, x, y))
    && (forall x, x', y :: SameVerdict(rules, x, x', y))
  }

  predicate SameBothWays(rules: Rules, x: Item, y: Item) {
    Conflict(rules, x, y) == Conflict(rules, y, x)
  }

  predicate SameVerdict(rules: Rules, x: Item, x': Item, y: Item) {
    SameClaim(x, x') ==> Conflict(rules, x, y) == Conflict(rules, x', y)
  }

  /** An item that asks for the deletion of a live incarnation belongs to a record set that is deleting. */
  ghost predicate Faithful(recordSets: seq<RecordSet>, existing: seq<Item>) {
    forall r, x :: r in recordSets && x in existing && x.key == r.key && Matches(x, r) && x.deletionRequested ==>
      r.deleting
  }

  /**
   Where a composed item comes from when nothing is being deleted: accepted, or a stored claim that still counts as an
   owner.
   */
  lemma ItemOrigin(context: Context, screening: Screening, recordSets: seq<RecordSet>, existing: seq<Item>,
                   item: Item) returns (origin: Item)
    requires UniqueRecordSets(recordSets) && UniqueKeys(existing) && Faithful(recordSets, existing)
    requires forall r :: r in recordSets ==> !r.deleting
    requires item in Compose(context, screening, recordSets, existing)
    requires item !in Accepted(context, Supported(screening, recordSets), existing)
    ensures origin in existing && origin in OwnersOf(context, Supported(screening, recordSets), existing)
    ensures origin.key == item.key && SameClaim(origin, item)
  {
    var supported, rejected := Supported(screening, recordSets), Rejected(screening, recordSets);
    ScreenedRecordSets(screening, recordSets);
    NoDeletions(context, supported, existing);
    if item in Predecessors(context, recordSets, existing) {
      origin := item;
      PredecessorItem(context, recordSets, existing, item);
      PredecessorRetained(context, recordSets, supported, existing, item);
    } else {
      var recordSet := KeptItem(context, rejected, existing, item);
      ItemByKeyIsMember(existing, recordSet.key);
      origin := ItemsByKey(existing)[recordSet.key];
      FilterMembers(existing, (x: Item) => Retains(context, RecordSetsByKey(supported), x));
      ByKeyIsMember(supported, recordSet.key);
      if recordSet.key in RecordSetsByKey(supported) {
        DifferentKeys(recordSets, RecordSetsByKey(supported)[recordSet.key], recordSet);
      }
    }
  }

  /** Without deletions every retained item is an owner. */
  lemma NoDeletions(context: Context, recordSets: seq<RecordSet>, existing: seq<Item>)
    requires forall r :: r in recordSets ==> !r.deleting
    ensures forall x :: x in Retained(context, recordSets, existing) ==> x in OwnersOf(context, recordSets, existing)
  {
    var stored := ItemsByKey(Retained(context, recordSets, existing));
    NoDeletionItems(context, recordSets, stored);
    FilterMembers(Retained(context, recordSets, existing),
                  (x: Item) => !Contested(context.rules, x, DeletionItems(context, recordSets, stored)));
  }

  lemma {:induction false} NoDeletionItems(context: Context, recordSets: seq<RecordSet>, stored: map<Key, Item>)
    requires forall r :: r in recordSets ==> !r.deleting
    ensures DeletionItems(context, recordSets, stored) == []
  {
    if recordSets != [] {
      NoDeletionItems(context, recordSets[..|recordSets| - 1], stored);
    }
  }

  lemma AcceptedAgainstOwner(context: Context, recordSets: seq<RecordSet>, existing: seq<Item>, item: Item, owner: Item)
    requires UniqueRecordSets(recordSets) && item in Accepted(context, recordSets, existing)
    requires owner in OwnersOf(context, recordSets, existing) && owner.key != item.key
    ensures !Conflict(context.rules, item, owner)
  {
    var recordSet := AcceptedItem(context, recordSets, existing, item);
  }

  lemma AcceptedPair(context: Context, recordSets: seq<RecordSet>, existing: seq<Item>, x: Item, y: Item)
    requires UniqueRecordSets(recordSets) && Symmetric(context.rules) && x.key != y.key
    requires x in Accepted(context, recordSets, existing) && y in Accepted(context, recordSets, existing)
    ensures !Conflict(context.rules, x, y)
  {
    var items := Accepted(context, recordSets, existing);
    var i :| 0 <= i < |items| && items[i] == x;
    var j :| 0 <= j < |items| && items[j] == y;
    AcceptedIsConflictFree(context, recordSets, existing, if i < j then i else j, if i < j then j else i);
    assert SameBothWays(context.rules, x, y);
  }

  /** With symmetric rules a conflict depends only on what is claimed. */
  lemma ClaimsDecide(rules: Rules, left: Item, right: Item, other: Item)
    requires Symmetric(rules) && SameClaim(left, right)
    ensures Conflict(rules, left, other) == Conflict(rules, right, other)
            == Conflict(rules, other, left) == Conflict(rules, other, right)
  {
    assert SameVerdict(rules, left, right, other);
    assert SameBothWays(rules, left, other) && SameBothWays(rules, right, other);
  }

  /**
   When no record set is being deleted and the rules are a symmetric predicate of owner name and type, a ledger
   free of conflicts is followed by a ledger free of conflicts.
   */
  lemma LedgerStaysConflictFree(context: Context, screening: Screening, recordSets: seq<RecordSet>, existing: seq<Item>)
    requires UniqueRecordSets(recordSets) && UniqueKeys(existing) && Faithful(recordSets, existing)
    requires Symmetric(context.rules) && forall r :: r in recordSets ==> !r.deleting
    requires ConflictFree(context.rules, existing)
    ensures ConflictFree(context.rules, Compose(context, screening, recordSets, existing))
  {
    var supported := Supported(screening, recordSets);
    var items, accepted := Compose(context, screening, recordSets, existing), Accepted(context, supported, existing);
    ScreenedRecordSets(screening, recordSets);
    forall x, y | x in items && y in items && x.key != y.key
      ensures !Conflict(context.rules, x, y)
    {
      if x in accepted && y in accepted {
        AcceptedPair(context, supported, existing, x, y);
      } else if x in accepted {
        var origin := ItemOrigin(context, screening, recordSets, existing, y);
        AcceptedAgainstOwner(context, supported, existing, x, origin);
        ClaimsDecide(context.rules, origin, y, x);
      } else if y in accepted {
        var origin := ItemOrigin(context, screening, recordSets, existing, x);
        AcceptedAgainstOwner(context, supported, existing, y, origin);
        ClaimsDecide(context.rules, origin, x, y);
      } else {
        var left := ItemOrigin(context, screening, recordSets, existing, x);
        var right := ItemOrigin(context, screening, recordSets, existing, y);
        ClaimsDecide(context.rules, left, x, right);
        ClaimsDecide(context.rules, right, y, x);
      }
    }
  }

  // ---------- runs of compositions ----------

  /** What one composition reads besides the stored ledger; all of it may differ from one composition to the next. */
  datatype Pass = Pass(context: Context, screening: Screening, recordSets: seq<RecordSet>)

  /** A run from the empty ledger: ledger k + 1 is composed from ledger k. */
  ghost predicate Run(passes: seq<Pass>, ledgers: seq<seq<Item>>) {
    && |ledgers| == |passes| + 1 && ledgers[0] == []
    && forall k :: 0 <= k < |passes| ==> ComposesAt(passes, ledgers, k)
  }

  ghost predicate ComposesAt(passes: seq<Pass>, ledgers: seq<seq<Item>>, k: nat)
    requires k < |passes| && |ledgers| == |passes| + 1
  {
    Composes(passes[k], ledgers[k], ledgers[k + 1])
  }

  /** One composition; no two record sets have the same key. */
  ghost predicate Composes(pass: Pass, before: seq<Item>, after: seq<Item>) {
    UniqueRecordSets(pass.recordSets) && after == Compose(pass.context, pass.screening, pass.recordSets, before)
  }

  lemma ComposesUniquely(pass: Pass, before: seq<Item>, after: seq<Item>)
    requires Composes(pass, before, after) && UniqueKeys(before)
    ensures UniqueKeys(after)
  {
    KeysStayUnique(pass.context, pass.screening, pass.recordSets, before);
  }

  /** Along any sequence of compositions from the empty ledger the keys are unique. */
  lemma {:induction false} RunKeysUnique(passes: seq<Pass>, ledgers: seq<seq<Item>>, k: nat)
    requires Run(passes, ledgers) && k <= |passes|
    ensures UniqueKeys(ledgers[k])
  {
    if k > 0 {
      RunKeysUnique(passes, ledgers, k - 1);
      assert ComposesAt(passes, ledgers, k - 1);
      ComposesUniquely(passes[k - 1], ledgers[k - 1], ledgers[k]);
    }
  }

  /** The same incarnation of a record set. */
  predicate SameClaimant(left: RecordSet, right: RecordSet) {
    left.key == right.key && SameUID(left.uid, right.uid)
  }

  /** An incarnation once seen being deleted is never seen alive again. */
  ghost predicate Irrevocable(passes: seq<Pass>) {
    forall i, j :: 0 <= i <= j < |passes| ==> StayDeleting(passes, i, j)
  }

  ghost predicate StayDeleting(passes: seq<Pass>, i: nat, j: nat)
    requires i < |passes| && j < |passes|
  {
    forall r, s :: r in passes[i].recordSets && s in passes[j].recordSets && SameClaimant(r, s) && r.deleting ==>
      s.deleting
  }

  /** One of the first k compositions saw the incarnation of the item being deleted. */
  ghost predicate Witnessed(passes: seq<Pass>, k: nat, item: Item)
    requires k <= |passes|
  {
    exists i :: 0 <= i < k && Requests(passes[i], item)
  }

  ghost predicate Requests(pass: Pass, item: Item) {
    exists r :: r in pass.recordSets && Requested(r, item)
  }

  predicate Requested(recordSet: RecordSet, item: Item) {
    recordSet.key == item.key && recordSet.uid == item.uid && recordSet.deleting
  }

  /** A composed item that asks for deletion was stored asking for it, or its record set is being deleted. */
  lemma DeletionOrigin(pass: Pass, before: seq<Item>, after: seq<Item>, item: Item)
    requires Composes(pass, before, after) && UniqueKeys(before) && item in after && item.deletionRequested
    ensures item in before || Requests(pass, item)
  {
    var supported, rejected := Supported(pass.screening, pass.recordSets), Rejected(pass.screening, pass.recordSets);
    ScreenedRecordSets(pass.screening, pass.recordSets);
    if item in Predecessors(pass.context, pass.recordSets, before) {
      PredecessorItem(pass.context, pass.recordSets, before, item);
    } else if item in Accepted(pass.context, supported, before) {
      var r := AcceptedItem(pass.context, supported, before, item);
      assert Requested(r, item);
    } else {
      var r := KeptItem(pass.context, rejected, before, item);
      assert Requested(r, item);
    }
  }

  /** By induction over the run: every deletion request in the ledger has been witnessed. */
  lemma {:induction false} RequestsAreWitnessed(passes: seq<Pass>, ledgers: seq<seq<Item>>, k: nat, item: Item)
    requires Run(passes, ledgers) && k <= |passes| && item in ledgers[k] && item.deletionRequested
    ensures Witnessed(passes, k, item)
  {
    RunKeysUnique(passes, ledgers, k - 1);
    assert ComposesAt(passes, ledgers, k - 1);
    DeletionOrigin(passes[k - 1], ledgers[k - 1], ledgers[k], item);
    if item in ledgers[k - 1] {
      RequestsAreWitnessed(passes, ledgers, k - 1, item);
    }
  }

  /** Deletion being irrevocable, a stored deletion request always belongs to a record set being deleted. */
  lemma {:induction false} RequestsAreFaithful(passes: seq<Pass>, ledgers: seq<seq<Item>>, k: nat)
    requires Run(passes, ledgers) && Irrevocable(passes) && k < |passes|
    ensures Faithful(passes[k].recordSets, ledgers[k])
  {
    forall s, x | s in passes[k].recordSets && x in ledgers[k] && x.key == s.key && Matches(x, s) && x.deletionRequested
      ensures s.deleting
    {
      RequestsAreWitnessed(passes, ledgers, k, x);
      var i :| 0 <= i < k && Requests(passes[i], x);
      assert StayDeleting(passes, i, k);
    }
  }

  /** A composition under these rules with nothing being deleted. */
  ghost predicate Quiet(pass: Pass, rules: Rules) {
    pass.context.rules == rules && forall r :: r in pass.recordSets ==> !r.deleting
  }

  lemma QuietPass(pass: Pass, rules: Rules, before: seq<Item>, after: seq<Item>)
    requires Composes(pass, before, after) && UniqueKeys(before) && Faithful(pass.recordSets, before)
    requires Symmetric(rules) && Quiet(pass, rules) && ConflictFree(rules, before)
    ensures ConflictFree(rules, after)
  {
    LedgerStaysConflictFree(pass.context, pass.screening, pass.recordSets, before);
  }

  /**
   In every run in which deletion is irrevocable, a ledger free of conflicts stays so for as long as nothing is being
   deleted, when the rules are a symmetric predicate of owner name and type. The empty ledger is free of conflicts.
   */
  lemma {:induction false} RunStaysConflictFree(passes: seq<Pass>, ledgers: seq<seq<Item>>, rules: Rules, i: nat,
                                                k: nat)
    requires Run(passes, ledgers) && Irrevocable(passes) && Symmetric(rules) && i <= k <= |passes|
    requires forall j :: i <= j < k ==> Quiet(passes[j], rules)
    requires ConflictFree(rules, ledgers[i])
    ensures ConflictFree(rules, ledgers[k])
  {
    if i < k {
      RunStaysConflictFree(passes, ledgers, rules, i, k - 1);
      RunKeysUnique(passes, ledgers, k - 1);
      RequestsAreFaithful(passes, ledgers, k - 1);
      assert ComposesAt(passes, ledgers, k - 1);
      QuietPass(passes[k - 1], rules, ledgers[k - 1], ledgers[k]);
    }
  }
}
