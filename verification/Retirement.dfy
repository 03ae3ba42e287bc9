/**
 The source side of retirement (endpoint/retirement/retirement.go).

 A source may drop hostnames or addresses from an EndpointRecordSet only by keeping the dropped
 pairs as retirement entries. `Append` builds the specification that does so.
 */
module Retirement {
  import opened Names
  import opened Sequences
  import Probe

  type Hostname = string

  datatype Target = Target(isAddress: bool, value: AddressText)

  /** The hash of these parts; the parts of a target entry and of a hostname entry never collide. */
  datatype EntryID =
    | TargetID(uid: nat, generation: nat, address: Addr)
    | HostnameID(uid: nat, generation: nat, hostname: Hostname)

  datatype RetiredTarget = RetiredTarget(id: EntryID, generation: nat, address: AddressText, hostnames: seq<Hostname>)

  datatype RetiredHostname = RetiredHostname(id: EntryID, generation: nat, hostname: Hostname,
                                             addresses: seq<AddressText>)

  datatype Spec = Spec(hostnames: seq<Hostname>, targets: seq<Target>,
                       retiredTargets: seq<RetiredTarget>, retiredHostnames: seq<RetiredHostname>)

  datatype Condition = Condition(status: Probe.Status, generation: nat)

  /** One version of the object. A uid of 0 is the empty uid. */
  datatype Ers = Ers(uid: nat, version: nat, generation: nat, spec: Spec,
                     protection: Option<Condition>, captured: Option<Condition>, finalizer: bool, deleting: bool)

  const MAX_RETIRED_TARGETS := 64
  const MAX_RETIRED_HOSTNAMES := 256
  const NOTHING := Spec([], [], [], [])

  /** Only a False of this very generation lifts protection. */
  predicate Protected(ers: Ers) {
    || ers.protection.None?
    || ers.protection.value.status != Probe.False
    || ers.protection.value.generation != ers.generation
  }

  predicate Captured(ers: Ers) {
    ers.captured.Some? && ers.captured.value.status == Probe.True && ers.captured.value.generation == ers.generation
  }

  predicate HasRetirements(spec: Spec) {
    spec.retiredTargets != [] || spec.retiredHostnames != []
  }

  predicate RetireOnly(spec: Spec) {
    spec.hostnames == [] || spec.targets == []
  }

  // ---------- addresses ----------

  predicate Readable(text: AddressText) {
    text.Parsed? && text.addr.Zone() == ""
  }

  function AddOnce(out: seq<Addr>, address: Addr): seq<Addr> {
    if address in out then out else out + [address]
  }

  function AddressesOf(targets: seq<Target>): Result<seq<Addr>> {
    if targets == [] then Ok([])
    else
      var last := targets[|targets| - 1];
      match AddressesOf(targets[..|targets| - 1])
      case Err(error) => Err(error)
      case Ok(out) =>
        if !last.isAddress then Ok(out)
        else if !Readable(last.value) then Err("invalid IP target")
        else Ok(AddOnce(out, last.value.addr.Unmap()))
  }

  method Addresses(targets: seq<Target>) returns (result: Result<seq<Addr>>)
    ensures result == AddressesOf(targets)
  {
    var out: seq<Addr> := [];
    var i := 0;
    while i < |targets|
      invariant 0 <= i <= |targets|
      invariant AddressesOf(targets[..i]) == Ok(out)
    {
      assert targets[..i + 1][..i] == targets[..i];
      var target := targets[i];
      if target.isAddress {
        if !Readable(target.value) {
          InvalidStays(targets, i + 1);
          return Err("invalid IP target");
        }
        var address := target.value.addr.Unmap();
        if address !in out {
          out := out + [address];
        }
      }
      i := i + 1;
    }
    assert targets[..i] == targets;
    result := Ok(out);
  }

  lemma {:induction false} InvalidStays(targets: seq<Target>, i: nat)
    requires i <= |targets| && AddressesOf(targets[..i]) == Err("invalid IP target")
    ensures AddressesOf(targets) == Err("invalid IP target")
  {
    if i == |targets| {
      assert targets[..i] == targets;
    } else {
      assert targets[..|targets| - 1][..i] == targets[..i];
      InvalidStays(targets[..|targets| - 1], i);
    }
  }

  /** The addresses a list of targets publishes. */
  function AddressSet(targets: seq<Target>): set<Addr> {
    set t | t in targets && t.isAddress && Readable(t.value) :: t.value.addr.Unmap()
  }

  lemma {:induction false} AddressesAre(targets: seq<Target>)
    ensures AddressesOf(targets).Err? <==> exists t :: t in targets && t.isAddress && !Readable(t.value)
    ensures AddressesOf(targets).Ok? ==> Distinct(AddressesOf(targets).value)
    ensures AddressesOf(targets).Ok? ==> forall a :: a in AddressesOf(targets).value <==> a in AddressSet(targets)
  {
    if targets != [] {
      var rest, last := targets[..|targets| - 1], targets[|targets| - 1];
      AddressesAre(rest);
      assert targets == rest + [last];
      assert last.isAddress && Readable(last.value) ==> last.value.addr.Unmap() in AddressSet(targets);
      assert forall a :: a in AddressSet(rest) ==> a in AddressSet(targets);
    }
  }

  // ---------- Append ----------

  function Texts(addresses: seq<Addr>): (texts: seq<AddressText>)
    ensures |texts| == |addresses|
  {
    seq(|addresses|, i requires 0 <= i < |addresses| => Parsed(addresses[i]))
  }

  function TargetEntry(current: Ers, address: Addr): RetiredTarget {
    RetiredTarget(TargetID(current.uid, current.generation, address), current.generation, Parsed(address),
                  current.spec.hostnames)
  }

  function HostnameEntry(current: Ers, before: seq<Addr>, hostname: Hostname): RetiredHostname {
    RetiredHostname(HostnameID(current.uid, current.generation, hostname), current.generation, hostname, Texts(before))
  }

  function TargetEntries(current: Ers, removed: seq<Addr>): (entries: seq<RetiredTarget>)
    ensures |entries| == |removed|
  {
    seq(|removed|, i requires 0 <= i < |removed| => TargetEntry(current, removed[i]))
  }

  function HostnameEntries(current: Ers, before: seq<Addr>, removed: seq<Hostname>): (entries: seq<RetiredHostname>)
    ensures |entries| == |removed|
  {
    seq(|removed|, i requires 0 <= i < |removed| => HostnameEntry(current, before, removed[i]))
  }

  function RemovedAddresses(before: seq<Addr>, after: seq<Addr>, hostnames: seq<Hostname>): seq<Addr> {
    Filter(before, (a: Addr) => a !in after || hostnames == [])
  }

  function RemovedHostnames(before: seq<Hostname>, after: seq<Addr>, hostnames: seq<Hostname>): seq<Hostname> {
    Filter(before, (h: Hostname) => h !in hostnames || after == [])
  }

  predicate OverLimit(current: Ers, before: seq<Addr>, addresses: seq<Addr>, hostnames: seq<Hostname>) {
    || |current.spec.hostnames| > MAX_RETIRED_HOSTNAMES
    || |before| > MAX_RETIRED_TARGETS
    || |current.spec.retiredTargets| + |addresses| > MAX_RETIRED_TARGETS
    || |current.spec.retiredHostnames| + |hostnames| > MAX_RETIRED_HOSTNAMES
  }

  function Keeping(current: Ers, desired: Spec): Spec {
    desired.(retiredTargets := current.spec.retiredTargets, retiredHostnames := current.spec.retiredHostnames)
  }

  function AppendSpec(current: Ers, desired: Spec): Result<Spec> {
    var out := Keeping(current, desired);
    if !Protected(current) then Ok(out)
    else if AddressesOf(current.spec.targets).Err? then Err("invalid IP target")
    else if AddressesOf(desired.targets).Err? then Err("invalid IP target")
    else
      var before, after := AddressesOf(current.spec.targets).value, AddressesOf(desired.targets).value;
      if before == [] || current.spec.hostnames == [] then Ok(out)
      else
        var addresses := RemovedAddresses(before, after, desired.hostnames);
        var hostnames := RemovedHostnames(current.spec.hostnames, after, desired.hostnames);
        if addresses == [] && hostnames == [] then Ok(out)
        else if current.uid == 0 || current.generation < 1 then Err("UID and generation are required")
        else if OverLimit(current, before, addresses, hostnames) then Err("retirement snapshot limits exceeded")
        else
          Ok(out.(retiredTargets := out.retiredTargets + TargetEntries(current, addresses),
                  retiredHostnames := out.retiredHostnames + HostnameEntries(current, before, hostnames)))
  }

  method Append(current: Ers, desired: Spec) returns (result: Result<Spec>)
    ensures result == AppendSpec(current, desired)
  {
    var out := Keeping(current, desired);
    if !Protected(current) {
      return Ok(out);
    }
    var oldAddresses := Addresses(current.spec.targets);
    if oldAddresses.Err? {
      AddressesError(current.spec.targets);
      return Err(oldAddresses.error);
    }
    var newAddresses := Addresses(desired.targets);
    if newAddresses.Err? {
      AddressesError(desired.targets);
      return Err(newAddresses.error);
    }
    var before, after := oldAddresses.value, newAddresses.value;
    if |before| == 0 || |current.spec.hostnames| == 0 {
      return Ok(out);
    }
    var removedAddresses := CollectAddresses(before, after, desired.hostnames);
    var removedHostnames := CollectHostnames(current.spec.hostnames, after, desired.hostnames);
    if |removedAddresses| == 0 && |removedHostnames| == 0 {
      return Ok(out);
    }
    if current.uid == 0 || current.generation < 1 {
      return Err("UID and generation are required");
    }
    if OverLimit(current, before, removedAddresses, removedHostnames) {
      return Err("retirement snapshot limits exceeded");
    }
    out := AddEntries(current, out, before, removedAddresses, removedHostnames);
    result := Ok(out);
  }

  lemma {:induction false} AddressesError(targets: seq<Target>)
    ensures AddressesOf(targets).Err? ==> AddressesOf(targets).error == "invalid IP target"
  {
    if targets != [] {
      AddressesError(targets[..|targets| - 1]);
    }
  }

  method CollectAddresses(before: seq<Addr>, after: seq<Addr>, hostnames: seq<Hostname>) returns (removed: seq<Addr>)
    ensures removed == RemovedAddresses(before, after, hostnames)
  {
    removed := [];
    var i := 0;
    while i < |before|
      invariant 0 <= i <= |before|
      invariant removed == RemovedAddresses(before[..i], after, hostnames)
    {
      assert before[..i + 1][..i] == before[..i];
      if before[i] !in after || |hostnames| == 0 {
        removed := removed + [before[i]];
      }
      i := i + 1;
    }
    assert before[..i] == before;
  }

  method CollectHostnames(before: seq<Hostname>, after: seq<Addr>, hostnames: seq<Hostname>)
    returns (removed: seq<Hostname>)
    ensures removed == RemovedHostnames(before, after, hostnames)
  {
    removed := [];
    var i := 0;
    while i < |before|
      invariant 0 <= i <= |before|
      invariant removed == RemovedHostnames(before[..i], after, hostnames)
    {
      assert before[..i + 1][..i] == before[..i];
      if before[i] !in hostnames || |after| == 0 {
        removed := removed + [before[i]];
      }
      i := i + 1;
    }
    assert before[..i] == before;
  }

  method AddEntries(current: Ers, spec: Spec, before: seq<Addr>, addresses: seq<Addr>, hostnames: seq<Hostname>)
    returns (out: Spec)
    ensures out == spec.(retiredTargets := spec.retiredTargets + TargetEntries(current, addresses),
                         retiredHostnames := spec.retiredHostnames + HostnameEntries(current, before, hostnames))
  {
    out := spec;
    var i := 0;
    while i < |addresses|
      invariant 0 <= i <= |addresses|
      invariant out == spec.(retiredTargets := spec.retiredTargets + TargetEntries(current, addresses[..i]))
    {
      assert TargetEntries(current, addresses[..i + 1])
             == TargetEntries(current, addresses[..i]) + [TargetEntry(current, addresses[i])];
      out := out.(retiredTargets := out.retiredTargets + [TargetEntry(current, addresses[i])]);
      i := i + 1;
    }
    assert addresses[..i] == addresses;
    ghost var targets := out.retiredTargets;
    var j := 0;
    while j < |hostnames|
      invariant 0 <= j <= |hostnames|
      invariant out == spec.(retiredTargets := targets,
                             retiredHostnames := spec.retiredHostnames
                                                  + HostnameEntries(current, before, hostnames[..j]))
    {
      assert HostnameEntries(current, before, hostnames[..j + 1])
             == HostnameEntries(current, before, hostnames[..j]) + [HostnameEntry(current, before, hostnames[j])];
      out := out.(retiredHostnames := out.retiredHostnames + [HostnameEntry(current, before, hostnames[j])]);
      j := j + 1;
    }
    assert hostnames[..j] == hostnames;
  }

  // ---------- what a specification publishes and retires ----------

  datatype Pair = Pair(hostname: Hostname, address: Addr)

  function Pairs(spec: Spec): set<Pair> {
    set h, a | h in spec.hostnames && a in AddressSet(spec.targets) :: Pair(h, a)
  }

  function TextSet(texts: seq<AddressText>): set<Addr> {
    set t | t in texts && Readable(t) :: t.addr.Unmap()
  }

  /** The pairs a list of retired targets holds for one source generation. */
  predicate TargetRetires(entry: RetiredTarget, generation: nat, pair: Pair) {
    && entry.generation == generation && pair.hostname in entry.hostnames && Readable(entry.address)
    && entry.address.addr.Unmap() == pair.address
  }

  predicate HostnameRetires(entry: RetiredHostname, generation: nat, pair: Pair) {
    entry.generation == generation && entry.hostname == pair.hostname && pair.address in TextSet(entry.addresses)
  }

  ghost predicate Retires(spec: Spec, generation: nat, pair: Pair) {
    || (exists e :: e in spec.retiredTargets && TargetRetires(e, generation, pair))
    || (exists e :: e in spec.retiredHostnames && HostnameRetires(e, generation, pair))
  }

  /** Every address the object publishes is already unwrapped when it is compared. */
  lemma AddressSetIsUnmapped(targets: seq<Target>, address: Addr)
    requires address in AddressSet(targets)
    ensures !address.Mapped? && address.Unmap() == address && address.Zone() == ""
  {
  }

  lemma TargetEntriesRetire(current: Ers, removed: seq<Addr>, pair: Pair)
    requires forall a :: a in removed ==> !a.Mapped? && a.Zone() == ""
    ensures (exists e :: e in TargetEntries(current, removed) && TargetRetires(e, current.generation, pair))
            <==> pair.hostname in current.spec.hostnames && pair.address in removed
  {
    var entries := TargetEntries(current, removed);
    if pair.hostname in current.spec.hostnames && pair.address in removed {
      var i :| 0 <= i < |removed| && removed[i] == pair.address;
      assert entries[i] in entries && TargetRetires(entries[i], current.generation, pair);
    }
  }

  lemma HostnameEntriesRetire(current: Ers, before: seq<Addr>, removed: seq<Hostname>, pair: Pair)
    requires forall a :: a in before ==> !a.Mapped? && a.Zone() == ""
    ensures (exists e :: e in HostnameEntries(current, before, removed) && HostnameRetires(e, current.generation, pair))
            <==> pair.hostname in removed && pair.address in before
  {
    var entries := HostnameEntries(current, before, removed);
    TextsAre(before);
    if pair.hostname in removed && pair.address in before {
      var i :| 0 <= i < |removed| && removed[i] == pair.hostname;
      assert entries[i] in entries && HostnameRetires(entries[i], current.generation, pair);
    }
  }

  lemma TextsAre(addresses: seq<Addr>)
    requires forall a :: a in addresses ==> !a.Mapped? && a.Zone() == ""
    ensures forall a :: a in TextSet(Texts(addresses)) <==> a in addresses
  {
    forall a | a in addresses
      ensures a in TextSet(Texts(addresses))
    {
      var i :| 0 <= i < |addresses| && addresses[i] == a;
      assert Texts(addresses)[i] in Texts(addresses);
    }
  }

  /** The entries a successful Append adds: none when the object is unprotected. */
  function Added(current: Ers, desired: Spec): Spec
    requires AppendSpec(current, desired).Ok?
  {
    var spec := AppendSpec(current, desired).value;
    Spec([], [], spec.retiredTargets[|current.spec.retiredTargets|..],
         spec.retiredHostnames[|current.spec.retiredHostnames|..])
  }

  /** Append keeps the desired live part and every entry already there, and adds its entries behind them. */
  lemma AppendKeeps(current: Ers, desired: Spec)
    requires AppendSpec(current, desired).Ok?
    ensures var spec := AppendSpec(current, desired).value;
      && spec.hostnames == desired.hostnames && spec.targets == desired.targets
      && spec.retiredTargets == current.spec.retiredTargets + Added(current, desired).retiredTargets
      && spec.retiredHostnames == current.spec.retiredHostnames + Added(current, desired).retiredHostnames
      && (!Protected(current) ==>
            && spec.retiredTargets == current.spec.retiredTargets
            && spec.retiredHostnames == current.spec.retiredHostnames)
  {
  }

  /**
   Append is exact: the added entries retire, at the generation of the object, exactly the pairs that a protected
   object published and the desired specification does not, and none of an unprotected object.
   */
  lemma AppendIsExact(current: Ers, desired: Spec, pair: Pair)
    requires AppendSpec(current, desired).Ok?
    ensures Retires(Added(current, desired), current.generation, pair) <==>
      Protected(current) && pair in Pairs(current.spec) - Pairs(desired)
  {
    if Protected(current) {
      ProtectedIsExact(current, desired, pair);
    }
  }

  lemma ProtectedIsExact(current: Ers, desired: Spec, pair: Pair)
    requires Protected(current) && AppendSpec(current, desired).Ok?
    ensures Retires(Added(current, desired), current.generation, pair) <==> pair in Pairs(current.spec) - Pairs(desired)
  {
    var before, after, addresses, hostnames := Removals(current, desired);
    RemovedPairs(current.spec, desired, before, after, addresses, hostnames, pair);
    if before == [] || current.spec.hostnames == [] || (addresses == [] && hostnames == []) {
      assert Added(current, desired) == NOTHING;
    } else {
      AddedEntries(current, desired, before, addresses, hostnames);
      forall a | a in before || a in addresses
        ensures !a.Mapped? && a.Zone() == ""
      {
        AddressSetIsUnmapped(current.spec.targets, a);
      }
      TargetEntriesRetire(current, addresses, pair);
      HostnameEntriesRetire(current, before, hostnames, pair);
    }
  }

  /** What Append compares, as sets. */
  lemma Removals(current: Ers, desired: Spec)
    returns (before: seq<Addr>, after: seq<Addr>, addresses: seq<Addr>, hostnames: seq<Hostname>)
    requires Protected(current) && AppendSpec(current, desired).Ok?
    ensures AddressesOf(current.spec.targets) == Ok(before) && AddressesOf(desired.targets) == Ok(after)
    ensures addresses == RemovedAddresses(before, after, desired.hostnames)
    ensures hostnames == RemovedHostnames(current.spec.hostnames, after, desired.hostnames)
    ensures forall a :: a in before <==> a in AddressSet(current.spec.targets)
    ensures forall a :: a in after <==> a in AddressSet(desired.targets)
    ensures forall a :: a in addresses <==> a in before && (a !in after || desired.hostnames == [])
    ensures forall h :: h in hostnames <==> h in current.spec.hostnames && (h !in desired.hostnames || after == [])
  {
    before, after := AddressesOf(current.spec.targets).value, AddressesOf(desired.targets).value;
    AddressesAre(current.spec.targets);
    AddressesAre(desired.targets);
    addresses := RemovedAddresses(before, after, desired.hostnames);
    hostnames := RemovedHostnames(current.spec.hostnames, after, desired.hostnames);
    var names := desired.hostnames;
    var kept := after;
    FilterMembers(before, (a: Addr) => a !in kept || names == []);
    FilterMembers(current.spec.hostnames, (h: Hostname) => h !in names || kept == []);
  }

  lemma AddedEntries(current: Ers, desired: Spec, before: seq<Addr>, addresses: seq<Addr>, hostnames: seq<Hostname>)
    requires Protected(current) && AppendSpec(current, desired).Ok?
    requires AddressesOf(current.spec.targets) == Ok(before) && before != [] && current.spec.hostnames != []
    requires addresses == RemovedAddresses(before, AddressesOf(desired.targets).value, desired.hostnames)
    requires hostnames
             == RemovedHostnames(current.spec.hostnames, AddressesOf(desired.targets).value, desired.hostnames)
    requires addresses != [] || hostnames != []
    ensures Added(current, desired).retiredTargets == TargetEntries(current, addresses)
    ensures Added(current, desired).retiredHostnames == HostnameEntries(current, before, hostnames)
  {
  }

  /** A pair is gone exactly when its address or its hostname is removed. */
  lemma RemovedPairs(current: Spec, desired: Spec, before: seq<Addr>, after: seq<Addr>, addresses: seq<Addr>,
                     hostnames: seq<Hostname>, pair: Pair)
    requires forall a :: a in before <==> a in AddressSet(current.targets)
    requires forall a :: a in after <==> a in AddressSet(desired.targets)
    requires forall a :: a in addresses <==> a in before && (a !in after || desired.hostnames == [])
    requires forall h :: h in hostnames <==> h in current.hostnames && (h !in desired.hostnames || after == [])
    ensures (pair.hostname in current.hostnames && pair.address in addresses)
            || (pair.hostname in hostnames && pair.address in before)
            <==> pair in Pairs(current) - Pairs(desired)
  {
    assert pair in Pairs(current) <==> pair.hostname in current.hostnames && pair.address in before;
    assert pair in Pairs(desired) <==> pair.hostname in desired.hostnames && pair.address in after;
  }

  // ---------- limits and entry IDs ----------

  predicate InLimits(spec: Spec) {
    && |spec.retiredTargets| <= MAX_RETIRED_TARGETS && |spec.retiredHostnames| <= MAX_RETIRED_HOSTNAMES
    && (forall e :: e in spec.retiredTargets ==> |e.hostnames| <= MAX_RETIRED_HOSTNAMES)
    && (forall e :: e in spec.retiredHostnames ==> |e.addresses| <= MAX_RETIRED_TARGETS)
  }

  lemma AppendKeepsLimits(current: Ers, desired: Spec)
    requires InLimits(current.spec) && AppendSpec(current, desired).Ok?
    ensures InLimits(AppendSpec(current, desired).value)
  {
  }

  function TargetIDs(spec: Spec): (ids: seq<EntryID>)
    ensures |ids| == |spec.retiredTargets|
  {
    seq(|spec.retiredTargets|, i requires 0 <= i < |spec.retiredTargets| => spec.retiredTargets[i].id)
  }

  function HostnameIDs(spec: Spec): (ids: seq<EntryID>)
    ensures |ids| == |spec.retiredHostnames|
  {
    seq(|spec.retiredHostnames|, i requires 0 <= i < |spec.retiredHostnames| => spec.retiredHostnames[i].id)
  }

  /** Each stored entry was made by Append at an earlier generation than `generation`, and no two share an ID. */
  ghost predicate WellStored(spec: Spec, generation: nat) {
    && (forall e :: e in spec.retiredTargets ==> e.id.TargetID? && e.id.generation == e.generation < generation)
    && (forall e :: e in spec.retiredHostnames ==> e.id.HostnameID? && e.id.generation == e.generation < generation)
    && Distinct(TargetIDs(spec)) && Distinct(HostnameIDs(spec))
  }

  /** Append keeps entry IDs unique: the new ones carry the current generation, which no stored one does. */
  lemma AppendKeepsIDs(current: Ers, desired: Spec)
    requires WellStored(current.spec, current.generation) && Distinct(current.spec.hostnames)
    requires AppendSpec(current, desired).Ok?
    ensures WellStored(AppendSpec(current, desired).value, current.generation + 1)
  {
    var spec := AppendSpec(current, desired).value;
    if HasRetirements(Added(current, desired)) {
      var before, after := AddressesOf(current.spec.targets).value, AddressesOf(desired.targets).value;
      AddressesAre(current.spec.targets);
      FilterDistinct(before, (a: Addr) => a !in after || desired.hostnames == []);
      FilterDistinct(current.spec.hostnames, (h: Hostname) => h !in desired.hostnames || after == []);
      var addresses := RemovedAddresses(before, after, desired.hostnames);
      var hostnames := RemovedHostnames(current.spec.hostnames, after, desired.hostnames);
      AddedIDs(current, spec, before, addresses, hostnames);
    } else {
      assert TargetIDs(spec) == TargetIDs(current.spec) && HostnameIDs(spec) == HostnameIDs(current.spec);
    }
  }

  lemma AddedIDs(current: Ers, spec: Spec, before: seq<Addr>, addresses: seq<Addr>, hostnames: seq<Hostname>)
    requires WellStored(current.spec, current.generation) && Distinct(addresses) && Distinct(hostnames)
    requires spec.retiredTargets == current.spec.retiredTargets + TargetEntries(current, addresses)
    requires spec.retiredHostnames == current.spec.retiredHostnames + HostnameEntries(current, before, hostnames)
    ensures WellStored(spec, current.generation + 1)
  {
    var targets := seq(|addresses|,
                       i requires 0 <= i < |addresses| => TargetID(current.uid, current.generation, addresses[i]));
    var names := seq(|hostnames|,
                     i requires 0 <= i < |hostnames| => HostnameID(current.uid, current.generation, hostnames[i]));
    assert TargetIDs(spec) == TargetIDs(current.spec) + targets;
    assert HostnameIDs(spec) == HostnameIDs(current.spec) + names;
    DistinctAppend(TargetIDs(current.spec), targets);
    DistinctAppend(HostnameIDs(current.spec), names);
  }
}
