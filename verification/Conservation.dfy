/**
 Two controllers and one object.

 The sources and the endpoint controller read possibly stale versions of an EndpointRecordSet and
 write under optimistic concurrency (endpoint/retirement/retirement.go, endpointrecordset/controller.go,
 endpointrecordset/withdrawal.go). `Conservation` says that no interleaving loses an obligation.
 */
module Conservation {
  import opened Names
  import opened Sequences
  import opened Retirement
  import opened Capture
  import Probe

  // ---------- what the controllers ask of the API server ----------

  /** A write carries the version it was computed from. `Touch` changes nothing that matters here. */
  datatype Call =
    | Skip
    | Update(version: nat, spec: Spec)
    | Delete(uid: nat, version: nat)
    | PatchStatus(version: nat, protection: Option<Condition>, captured: Option<Condition>)
    | AddFinalizer
    | RemoveFinalizer(version: nat)
    | Touch(version: nat)

  /** A source writes the specification it wants, keeping what it drops as retirement entries. */
  function SourceCall(ers: Ers, desired: Spec): Call {
    if ers.deleting then Skip
    else if AppendSpec(ers, desired).Err? then Touch(ers.version)
    else Update(ers.version, AppendSpec(ers, desired).value)
  }

  /** A source gives the whole object up. */
  function RetireCall(ers: Ers): Call {
    if ers.deleting then Skip
    else if !Protected(ers) || (RetireOnly(ers.spec) && Captured(ers)) then Delete(ers.uid, ers.version)
    else if AppendSpec(ers, NOTHING).Err? then Touch(ers.version)
    else
      var spec := AppendSpec(ers, NOTHING).value;
      if !HasRetirements(spec) then Delete(ers.uid, ers.version)
      else if ers.spec.hostnames != [] || ers.spec.targets != [] then Update(ers.version, spec)
      else Skip
  }

  method RetireOrDelete(ers: Ers) returns (call: Call)
    ensures call == RetireCall(ers)
  {
    if ers.deleting {
      return Skip;
    }
    if !Protected(ers) || ((|ers.spec.hostnames| == 0 || |ers.spec.targets| == 0) && Captured(ers)) {
      return Delete(ers.uid, ers.version);
    }
    var appended := Append(ers, NOTHING);
    if appended.Err? {
      return Touch(ers.version);
    }
    var spec := appended.value;
    if |spec.retiredTargets| == 0 && |spec.retiredHostnames| == 0 {
      return Delete(ers.uid, ers.version);
    }
    if |ers.spec.hostnames| != 0 || |ers.spec.targets| != 0 {
      return Update(ers.version, spec);
    }
    call := Skip;
  }

  /** What one pass of the endpoint controller finds out: the capture, leftover records and the capability. */
  datatype Findings = Findings(captured: bool, remaining: bool, capability: Probe.Status, failed: bool)

  function Pruned(spec: Spec): Spec {
    spec.(retiredTargets := [], retiredHostnames := [])
  }

  function EndpointCall(ers: Ers, findings: Findings): Call {
    var failed := PatchStatus(ers.version, ers.protection, Some(Condition(Probe.False, ers.generation)));
    var acknowledged := Some(Condition(Probe.True, ers.generation));
    if ers.deleting then
      if !ers.finalizer then Skip
      else if !findings.captured then failed
      else if findings.remaining then Touch(ers.version)
      else RemoveFinalizer(ers.version)
    else if !ers.finalizer then AddFinalizer
    else if HasRetirements(ers.spec) then
      if !findings.captured then failed
      else if !RetireOnly(ers.spec) then Update(ers.version, Pruned(ers.spec))
      else PatchStatus(ers.version, ers.protection, acknowledged)
    else if findings.failed then Skip
    else PatchStatus(ers.version, Some(Condition(Protection(ers, findings.capability), ers.generation)), acknowledged)
  }

  /** True is sticky for the life of the object. */
  function Protection(ers: Ers, capability: Probe.Status): Probe.Status {
    if ers.protection.Some? && ers.protection.value.status == Probe.True then Probe.True else capability
  }

  /**
   One reconciliation by the endpoint controller, with its capture pass. When the pass succeeds, every demand is
   free of obligation or has a claim.
   */
  method Reconcile(ers: Ers, pass: Pass, remaining: bool, capability: Probe.Status, failed: bool)
    returns (call: Call, ghost captured: bool)
    requires pass.ers == ers && pass.bindings == map[] && pass.captured == {}
    modifies pass
    ensures call == EndpointCall(ers, Findings(captured, remaining, capability, failed))
    ensures captured ==> InLimits(ers.spec) && forall d :: d in Demands(ers, ers.deleting) ==>
      Readable(d.address) && (pass.Where(d).Free? || ClaimOf(ers.uid, d) in pass.withdrawals)
  {
    captured := false;
    if ers.deleting {
      if !ers.finalizer {
        return Skip, false;
      }
      var ok := CaptureAll(pass, true);
      if !ok {
        return PatchStatus(ers.version, ers.protection, Some(Condition(Probe.False, ers.generation))), false;
      }
      return if remaining then Touch(ers.version) else RemoveFinalizer(ers.version), true;
    }
    if !ers.finalizer {
      return AddFinalizer, false;
    }
    if HasRetirements(ers.spec) {
      var ok := CaptureAll(pass, false);
      if !ok {
        return PatchStatus(ers.version, ers.protection, Some(Condition(Probe.False, ers.generation))), false;
      }
      if !RetireOnly(ers.spec) {
        return Update(ers.version, Pruned(ers.spec)), true;
      }
      return PatchStatus(ers.version, ers.protection, Some(Condition(Probe.True, ers.generation))), true;
    }
    if failed {
      return Skip, false;
    }
    call := PatchStatus(ers.version, Some(Condition(Protection(ers, capability), ers.generation)),
                        Some(Condition(Probe.True, ers.generation)));
  }

  method CaptureAll(pass: Pass, includeLive: bool) returns (ok: bool)
    requires pass.bindings == map[] && pass.captured == {}
    modifies pass
    ensures ok ==> InLimits(pass.ers.spec) && forall d :: d in Demands(pass.ers, includeLive) ==>
      Readable(d.address) && (pass.Where(d).Free? || ClaimOf(pass.ers.uid, d) in pass.withdrawals)
  {
    ghost var before := pass.withdrawals;
    ghost var settled: set<Demand>;
    ok, settled := pass.CaptureWithdrawals(includeLive);
    if ok {
      forall d | d in Demands(pass.ers, includeLive)
        ensures Readable(d.address) && (pass.Where(d).Free? || ClaimOf(pass.ers.uid, d) in pass.withdrawals)
      {
        pass.SettledIsClaimedOrFree(before, settled, d);
      }
    }
  }

  // ---------- the API server ----------

  /** The object after a call; `version` is fresh. A specification change and a deletion mark raise the generation. */
  function Applied(stored: Option<Ers>, version: nat, call: Call): Option<Ers> {
    if stored.None? then None
    else
      var ers := stored.value;
      match call
      case Update(v, spec) =>
        if v != ers.version then stored
        else Some(ers.(spec := spec, version := version,
                       generation := if spec == ers.spec then ers.generation else ers.generation + 1))
      case Delete(uid, v) =>
        if v != ers.version || uid != ers.uid then stored
        else if ers.finalizer then
          if ers.deleting then stored
          else Some(ers.(deleting := true, version := version, generation := ers.generation + 1))
        else None
      case PatchStatus(v, protection, captured) =>
        if v != ers.version then stored
        else Some(ers.(protection := protection, captured := captured, version := version))
      case AddFinalizer =>
        if ers.deleting || ers.finalizer then stored else Some(ers.(finalizer := true, version := version))
      case RemoveFinalizer(v) =>
        if v != ers.version then stored
        else if ers.deleting then None else Some(ers.(finalizer := false, version := version))
      case Touch(v) =>
        if v != ers.version then stored else Some(ers.(version := version))
      case Skip => stored
  }

  // ---------- the world ----------

  /**
   `history` holds every committed version, any of which a cache may still serve. `captured` are the
   claims ever created, `resolved` the pairs found free of obligation, `owed` the pairs ever removed.
   */
  datatype World = World(stored: Option<Ers>, clock: nat, history: set<Ers>,
                         captured: set<ClaimID>, resolved: set<ClaimID>, owed: set<ClaimID>)

  datatype Writer = Source(desired: Spec) | Retirer | Controller(findings: Findings) | Other

  datatype Event =
    | Create(spec: Spec, finalizer: bool)
    | Write(writer: Writer, seen: Ers, call: Call)
    | Settle(seen: Ers, demand: Demand, free: bool)

  const EMPTY := World(None, 0, {}, {}, {}, {})

  /** Every demand of a pass has a claim or is free; Pass.SettledIsClaimedOrFree gives this for a pass that succeeds. */
  ghost predicate AllSettled(world: World, ers: Ers, includeLive: bool) {
    forall d :: d in Demands(ers, includeLive) ==>
      Readable(d.address) && ClaimOf(ers.uid, d) in world.captured + world.resolved
  }

  /** The call is the one the writer computes from the version it has seen. */
  ghost predicate Computes(world: World, writer: Writer, seen: Ers, call: Call) {
    match writer
    case Source(desired) => call == SourceCall(seen, desired) && Distinct(desired.hostnames)
    case Retirer => call == RetireCall(seen)
    case Controller(findings) =>
      && call == EndpointCall(seen, findings)
      && (findings.captured ==> InLimits(seen.spec) && AllSettled(world, seen, seen.deleting))
    case Other => call == Touch(seen.version)
  }

  ghost predicate Enabled(world: World, event: Event) {
    match event
    case Create(spec, finalizer) => world.stored.None? && !HasRetirements(spec) && Distinct(spec.hostnames)
    case Write(writer, seen, call) => seen in world.history && Computes(world, writer, seen, call)
    case Settle(seen, demand, free) =>
      seen in world.history && demand in Demands(seen, true) && Readable(demand.address)
  }

  function ObjectAfter(world: World, event: Event): Option<Ers> {
    match event
    case Create(spec, finalizer) => Some(Ers(world.clock + 1, world.clock + 1, 1, spec, None, None, finalizer, false))
    case Write(writer, seen, call) => Applied(world.stored, world.clock + 1, call)
    case Settle(seen, demand, free) => world.stored
  }

  function PairsOf(stored: Option<Ers>): set<Pair> {
    if stored.Some? then Pairs(stored.value.spec) else {}
  }

  function ClaimFor(ers: Ers, generation: nat, pair: Pair): ClaimID {
    ClaimID(ers.uid, generation, CanonicalHostname(pair.hostname), pair.address)
  }

  /** The pairs a committed change removes from a protected object. */
  function Lost(before: Option<Ers>, after: Option<Ers>): set<ClaimID> {
    if before.Some? && Protected(before.value)
    then set p | p in PairsOf(before) - PairsOf(after) :: ClaimFor(before.value, before.value.generation, p)
    else {}
  }

  function Next(world: World, event: Event): World {
    var stored := ObjectAfter(world, event);
    World(stored, world.clock + 1,
          world.history + if stored.Some? then {stored.value} else {},
          world.captured + if event.Settle? && Readable(event.demand.address) && !event.free
                           then {ClaimOf(event.seen.uid, event.demand)} else {},
          world.resolved + if event.Settle? && Readable(event.demand.address) && event.free
                           then {ClaimOf(event.seen.uid, event.demand)} else {},
          world.owed + Lost(world.stored, stored))
  }

  // ---------- the invariant ----------

  /** The object still holds an obligation as a retirement entry. */
  ghost predicate Held(ers: Ers, claim: ClaimID) {
    && claim.uid == ers.uid
    && exists p :: Retires(ers.spec, claim.generation, p) && ClaimFor(ers, claim.generation, p) == claim
  }

  ghost predicate Sound(ers: Ers, settled: set<ClaimID>) {
    && ers.generation >= 1 && ers.uid >= 1
    && Distinct(ers.spec.hostnames) && WellStored(ers.spec, ers.generation) && InLimits(ers.spec)
    && (ers.protection.Some? ==> ers.protection.value.generation <= ers.generation)
    && (ers.captured.Some? ==> ers.captured.value.generation <= ers.generation)
    && (ers.protection.Some? && ers.protection.value.status == Probe.False ==> ers.finalizer)
    && (ers.captured.Some? && ers.captured.value.status == Probe.True ==> ers.finalizer)
    && (ers.deleting ==> ers.finalizer)
    && (!Protected(ers) ==> !HasRetirements(ers.spec))
    && (Captured(ers) ==> forall c :: Held(ers, c) ==> c in settled)
  }

  /** Versions are never reused, so a write computed from the current version saw the current object. */
  ghost predicate Versioned(world: World) {
    && (forall h :: h in world.history ==> h.version <= world.clock)
    && (forall a, b :: a in world.history && b in world.history && a.version == b.version ==> a == b)
    && (world.stored.Some? ==> world.stored.value in world.history)
  }

  /** Every obligation is a retirement entry, a claim, or resolved. */
  ghost predicate Conserved(world: World) {
    forall c :: c in world.owed ==>
      c in world.captured || c in world.resolved || (world.stored.Some? && Held(world.stored.value, c))
  }

  ghost predicate Invariant(world: World) {
    && Versioned(world)
    && Conserved(world)
    && (world.stored.Some? ==> Sound(world.stored.value, world.captured + world.resolved))
  }

  // ---------- demands cover entries and live pairs ----------

  lemma HeldIsDemanded(ers: Ers, includeLive: bool, claim: ClaimID) returns (demand: Demand)
    requires Held(ers, claim)
    ensures demand in Demands(ers, includeLive) && (Readable(demand.address) ==> ClaimOf(ers.uid, demand) == claim)
  {
    var p :| Retires(ers.spec, claim.generation, p) && ClaimFor(ers, claim.generation, p) == claim;
    if e :| e in ers.spec.retiredTargets && TargetRetires(e, claim.generation, p) {
      demand := Demand(p.hostname, e.address, e.generation);
      assert demand in TargetDemands(e, e.hostnames);
    } else {
      var e :| e in ers.spec.retiredHostnames && HostnameRetires(e, claim.generation, p);
      var text :| text in e.addresses && Readable(text) && text.addr.Unmap() == p.address;
      demand := Demand(e.hostname, text, e.generation);
      assert demand in HostnameDemands(e, e.addresses);
    }
  }

  lemma LiveIsDemanded(ers: Ers, pair: Pair) returns (demand: Demand)
    requires Protected(ers) && pair in Pairs(ers.spec)
    ensures demand in Demands(ers, true)
    ensures (Readable(demand.address) ==> ClaimOf(ers.uid, demand) == ClaimFor(ers, ers.generation, pair))
  {
    var t :| t in ers.spec.targets && t.isAddress && Readable(t.value) && t.value.addr.Unmap() == pair.address;
    demand := Demand(pair.hostname, t.value, ers.generation);
    assert demand in LiveDemands(ers, t, ers.spec.hostnames);
  }

  lemma SettledCoversHeld(world: World, ers: Ers, includeLive: bool)
    requires AllSettled(world, ers, includeLive)
    ensures forall c :: Held(ers, c) ==> c in world.captured + world.resolved
  {
    forall c | Held(ers, c)
      ensures c in world.captured + world.resolved
    {
      var d := HeldIsDemanded(ers, includeLive, c);
    }
  }

  lemma SettledCoversLive(world: World, ers: Ers)
    requires AllSettled(world, ers, true)
    ensures Lost(Some(ers), None) <= world.captured + world.resolved
  {
    forall c | c in Lost(Some(ers), None)
      ensures c in world.captured + world.resolved
    {
      var p :| p in Pairs(ers.spec) && ClaimFor(ers, ers.generation, p) == c;
      var d := LiveIsDemanded(ers, p);
    }
  }

  // ---------- each write keeps the object sound ----------

  /** Retirement by Append: nothing held is dropped, and everything lost is held. */
  lemma AppendConserves(ers: Ers, desired: Spec, after: Ers)
    requires AppendSpec(ers, desired).Ok? && after.uid == ers.uid && after.spec == AppendSpec(ers, desired).value
    ensures forall c :: Held(ers, c) ==> Held(after, c)
    ensures forall c :: c in Lost(Some(ers), Some(after)) ==> Held(after, c)
  {
    AppendKeeps(ers, desired);
    forall c | Held(ers, c)
      ensures Held(after, c)
    {
      var p :| Retires(ers.spec, c.generation, p) && ClaimFor(ers, c.generation, p) == c;
      assert Retires(after.spec, c.generation, p);
      assert ClaimFor(after, c.generation, p) == c;
    }
    forall c | c in Lost(Some(ers), Some(after))
      ensures Held(after, c)
    {
      var p :| p in Pairs(ers.spec) - Pairs(after.spec) && ClaimFor(ers, ers.generation, p) == c;
      assert Pairs(after.spec) == Pairs(desired);
      AppendIsExact(ers, desired, p);
      assert Retires(after.spec, c.generation, p);
      assert ClaimFor(after, c.generation, p) == c;
    }
  }

  lemma AppendSound(ers: Ers, desired: Spec, settled: set<ClaimID>, version: nat)
    requires Sound(ers, settled) && AppendSpec(ers, desired).Ok? && Distinct(desired.hostnames)
    ensures Sound(Applied(Some(ers), version, Update(ers.version, AppendSpec(ers, desired).value)).value, settled)
  {
    var spec := AppendSpec(ers, desired).value;
    var after := Applied(Some(ers), version, Update(ers.version, spec)).value;
    if spec == ers.spec {
      SameSpec(ers, after, settled);
    } else {
      AppendKeeps(ers, desired);
      AppendKeepsLimits(ers, desired);
      AppendKeepsIDs(ers, desired);
    }
  }

  lemma SameSpec(ers: Ers, after: Ers, settled: set<ClaimID>)
    requires Sound(ers, settled) && after == ers.(version := after.version)
    ensures Sound(after, settled) && forall c :: Held(after, c) <==> Held(ers, c)
  {
    forall c
      ensures Held(after, c) <==> Held(ers, c)
    {
      if Held(after, c) {
        var p :| Retires(after.spec, c.generation, p) && ClaimFor(after, c.generation, p) == c;
        assert ClaimFor(ers, c.generation, p) == c;
      }
      if Held(ers, c) {
        var p :| Retires(ers.spec, c.generation, p) && ClaimFor(ers, c.generation, p) == c;
        assert ClaimFor(after, c.generation, p) == c;
      }
    }
  }

  /** Nothing held or lost by a change escapes the new version and the settled claims. */
  ghost predicate Kept(before: Option<Ers>, after: Option<Ers>, settled: set<ClaimID>) {
    && (forall c :: before.Some? && Held(before.value, c) ==> c in settled || (after.Some? && Held(after.value, c)))
    && (forall c :: c in Lost(before, after) ==> c in settled || (after.Some? && Held(after.value, c)))
  }

  ghost predicate Good(before: Option<Ers>, after: Option<Ers>, settled: set<ClaimID>) {
    Kept(before, after, settled) && (after.Some? ==> Sound(after.value, settled))
  }

  lemma UnchangedGood(stored: Option<Ers>, settled: set<ClaimID>)
    requires stored.Some? ==> Sound(stored.value, settled)
    ensures Good(stored, stored, settled)
  {
  }

  lemma AppendGood(ers: Ers, desired: Spec, settled: set<ClaimID>, version: nat)
    requires Sound(ers, settled) && AppendSpec(ers, desired).Ok? && Distinct(desired.hostnames)
    ensures Good(Some(ers), Applied(Some(ers), version, Update(ers.version, AppendSpec(ers, desired).value)), settled)
  {
    AppendSound(ers, desired, settled, version);
    AppendConserves(ers, desired,
                    Applied(Some(ers), version, Update(ers.version, AppendSpec(ers, desired).value)).value);
  }

  /** Without a finalizer only an object with nothing to retire is deleted. */
  lemma DeletedGood(ers: Ers, settled: set<ClaimID>)
    requires AppendSpec(ers, NOTHING).Ok? && !HasRetirements(AppendSpec(ers, NOTHING).value) && Protected(ers)
    ensures Good(Some(ers), None, settled)
  {
    AppendKeeps(ers, NOTHING);
    assert !HasRetirements(ers.spec);
    assert Pairs(NOTHING) == {};
    forall p | p in Pairs(ers.spec)
      ensures false
    {
      AppendIsExact(ers, NOTHING, p);
    }
  }

  lemma RetireGood(ers: Ers, settled: set<ClaimID>, version: nat)
    requires Sound(ers, settled)
    ensures Good(Some(ers), Applied(Some(ers), version, RetireCall(ers)), settled)
  {
    if RetireCall(ers).Update? {
      RetireUpdate(ers, settled, version);
    } else if RetireCall(ers).Delete? {
      RetireDelete(ers, settled, version);
    }
  }

  lemma RetireUpdate(ers: Ers, settled: set<ClaimID>, version: nat)
    requires Sound(ers, settled) && RetireCall(ers).Update?
    ensures Good(Some(ers), Applied(Some(ers), version, RetireCall(ers)), settled)
  {
    AppendGood(ers, NOTHING, settled, version);
  }

  lemma RetireDelete(ers: Ers, settled: set<ClaimID>, version: nat)
    requires Sound(ers, settled) && RetireCall(ers).Delete?
    ensures Good(Some(ers), Applied(Some(ers), version, RetireCall(ers)), settled)
  {
    if !ers.finalizer {
      DeletedGood(ers, settled);
    }
  }

  lemma PrunedGood(ers: Ers, settled: set<ClaimID>, version: nat)
    requires Sound(ers, settled) && HasRetirements(ers.spec) && forall c :: Held(ers, c) ==> c in settled
    ensures Good(Some(ers), Applied(Some(ers), version, Update(ers.version, Pruned(ers.spec))), settled)
  {
    var after := Applied(Some(ers), version, Update(ers.version, Pruned(ers.spec))).value;
    assert TargetIDs(after.spec) == [] && HostnameIDs(after.spec) == [];
    assert Pairs(after.spec) == Pairs(ers.spec);
    assert forall c :: !Held(after, c);
  }

  lemma EndpointGood(world: World, ers: Ers, findings: Findings, version: nat)
    requires Sound(ers, world.captured + world.resolved)
    requires findings.captured ==> AllSettled(world, ers, ers.deleting)
    ensures Good(Some(ers), Applied(Some(ers), version, EndpointCall(ers, findings)), world.captured + world.resolved)
  {
    if findings.captured {
      SettledCoversHeld(world, ers, ers.deleting);
      if ers.deleting {
        SettledCoversLive(world, ers);
      }
    }
    if ers.deleting {
      DeletingGood(ers, findings, world.captured + world.resolved, version);
    } else if findings.captured && HasRetirements(ers.spec) {
      PrunedGood(ers, world.captured + world.resolved, version);
    }
  }

  /** The finalizer goes only when everything held and everything live is settled. */
  lemma DeletingGood(ers: Ers, findings: Findings, settled: set<ClaimID>, version: nat)
    requires Sound(ers, settled) && ers.deleting
    requires findings.captured ==> (forall c :: Held(ers, c) ==> c in settled) && Lost(Some(ers), None) <= settled
    ensures Good(Some(ers), Applied(Some(ers), version, EndpointCall(ers, findings)), settled)
  {
  }

  // ---------- any interleaving ----------

  /** A stale write is refused, so a write that takes effect was computed from the stored version. */
  lemma StaleOrCurrent(world: World, seen: Ers)
    requires Versioned(world) && seen in world.history && world.stored.Some?
    ensures world.stored.value == seen || world.stored.value.version != seen.version
  {
  }

  predicate From(seen: Ers, call: Call) {
    match call
    case Skip => true
    case AddFinalizer => true
    case Update(v, _) => v == seen.version
    case Delete(_, v) => v == seen.version
    case PatchStatus(v, _, _) => v == seen.version
    case RemoveFinalizer(v) => v == seen.version
    case Touch(v) => v == seen.version
  }

  /** A call computed from a stale version changes nothing, except that a missing finalizer may be added. */
  lemma StaleGood(world: World, seen: Ers, call: Call, version: nat)
    requires From(seen, call) && world.stored.Some? && world.stored.value.version != seen.version
    requires Sound(world.stored.value, world.captured + world.resolved)
    ensures Good(world.stored, Applied(world.stored, version, call), world.captured + world.resolved)
  {
  }

  lemma EventGood(world: World, event: Event)
    requires Invariant(world) && Enabled(world, event)
    ensures Good(world.stored, ObjectAfter(world, event), world.captured + world.resolved)
  {
    match event
    case Create(spec, finalizer) =>
    case Write(writer, seen, call) =>
      WriteGood(world, event, writer, seen, call);
    case Settle(seen, demand, free) =>
  }

  lemma WriteGood(world: World, event: Event, writer: Writer, seen: Ers, call: Call)
    requires Invariant(world) && event == Write(writer, seen, call) && seen in world.history
    requires Computes(world, writer, seen, call)
    ensures Good(world.stored, ObjectAfter(world, event), world.captured + world.resolved)
  {
    UnchangedGood(world.stored, world.captured + world.resolved);
    if world.stored.Some? {
      StaleOrCurrent(world, seen);
      if world.stored.value == seen {
        CurrentGood(world, writer, seen, call, world.clock + 1);
      } else {
        CallCarriesVersion(world, writer, seen, call);
        StaleGood(world, seen, call, world.clock + 1);
      }
    }
  }

  lemma CallCarriesVersion(world: World, writer: Writer, seen: Ers, call: Call)
    requires Computes(world, writer, seen, call)
    ensures From(seen, call)
  {
  }

  lemma CurrentGood(world: World, writer: Writer, seen: Ers, call: Call, version: nat)
    requires Sound(seen, world.captured + world.resolved) && Computes(world, writer, seen, call)
    ensures Good(Some(seen), Applied(Some(seen), version, call), world.captured + world.resolved)
  {
    match writer
    case Source(desired) =>
      SourceGood(seen, desired, world.captured + world.resolved, version);
    case Retirer =>
      RetireGood(seen, world.captured + world.resolved, version);
    case Controller(findings) =>
      EndpointGood(world, seen, findings, version);
    case Other =>
  }

  lemma SourceGood(ers: Ers, desired: Spec, settled: set<ClaimID>, version: nat)
    requires Sound(ers, settled) && Distinct(desired.hostnames)
    ensures Good(Some(ers), Applied(Some(ers), version, SourceCall(ers, desired)), settled)
  {
    if SourceCall(ers, desired).Update? {
      SourceUpdate(ers, desired, settled, version);
    }
  }

  lemma SourceUpdate(ers: Ers, desired: Spec, settled: set<ClaimID>, version: nat)
    requires Sound(ers, settled) && Distinct(desired.hostnames) && SourceCall(ers, desired).Update?
    ensures Good(Some(ers), Applied(Some(ers), version, SourceCall(ers, desired)), settled)
  {
    AppendGood(ers, desired, settled, version);
  }

  lemma AppliedIsFresh(stored: Option<Ers>, version: nat, call: Call)
    ensures var after := Applied(stored, version, call);
      after == stored || after.None? || after.value.version == version
  {
  }

  lemma VersionedStep(world: World, event: Event)
    requires Versioned(world) && Enabled(world, event)
    ensures Versioned(Next(world, event))
  {
    if event.Write? {
      AppliedIsFresh(world.stored, world.clock + 1, event.call);
    }
    FreshIsVersioned(world, Next(world, event));
  }

  lemma FreshIsVersioned(world: World, next: World)
    requires Versioned(world) && next.clock == world.clock + 1
    requires next.history == world.history + if next.stored.Some? then {next.stored.value} else {}
    requires next.stored == world.stored || next.stored.None? || next.stored.value.version == next.clock
    ensures Versioned(next)
  {
  }

  /** Every event of either controller, from any version either may have read, keeps the invariant. */
  lemma InvariantStep(world: World, event: Event)
    requires Invariant(world) && Enabled(world, event)
    ensures Invariant(Next(world, event))
  {
    var next := Next(world, event);
    VersionedStep(world, event);
    EventGood(world, event);
  }

  ghost predicate Run(worlds: seq<World>, events: seq<Event>) {
    && |worlds| == |events| + 1 && worlds[0] == EMPTY
    && forall k :: 0 <= k < |events| ==> Enabled(worlds[k], events[k]) && worlds[k + 1] == Next(worlds[k], events[k])
  }

  /**
   Conservation: at every moment of every run, each pair ever removed from a protected object is held as a
   retirement entry of the stored object, has a withdrawal claim, or was found to carry no obligation.
   */
  lemma {:induction false} NoObligationIsLost(worlds: seq<World>, events: seq<Event>, k: nat)
    requires Run(worlds, events) && k < |worlds|
    ensures Invariant(worlds[k]) && Conserved(worlds[k])
  {
    if k > 0 {
      NoObligationIsLost(worlds, events, k - 1);
      InvariantStep(worlds[k - 1], events[k - 1]);
    }
  }

  /** At every moment of every run the entry IDs of the stored object are unique and its limits are kept. */
  lemma EntriesStayUnique(worlds: seq<World>, events: seq<Event>, k: nat)
    requires Run(worlds, events) && k < |worlds| && worlds[k].stored.Some?
    ensures var ers := worlds[k].stored.value;
      && Distinct(TargetIDs(ers.spec)) && Distinct(HostnameIDs(ers.spec)) && InLimits(ers.spec)
      && (forall e :: e in ers.spec.retiredTargets ==> e.generation < ers.generation)
      && (forall e :: e in ers.spec.retiredHostnames ==> e.generation < ers.generation)
  {
    NoObligationIsLost(worlds, events, k);
  }

  /** A current acknowledgment of capture means that every entry of the object is settled. */
  lemma AcknowledgmentIsTrue(worlds: seq<World>, events: seq<Event>, k: nat, claim: ClaimID)
    requires Run(worlds, events) && k < |worlds| && worlds[k].stored.Some?
    requires Captured(worlds[k].stored.value) && Held(worlds[k].stored.value, claim)
    ensures claim in worlds[k].captured || claim in worlds[k].resolved
  {
    NoObligationIsLost(worlds, events, k);
  }

  /** What is owed, claimed or resolved stays so along a run. */
  lemma {:induction false} OwedStaysOwed(worlds: seq<World>, events: seq<Event>, i: nat, k: nat)
    requires Run(worlds, events) && i <= k < |worlds|
    ensures worlds[i].owed <= worlds[k].owed && worlds[i].captured <= worlds[k].captured
    ensures worlds[i].resolved <= worlds[k].resolved
  {
    if i < k {
      OwedStaysOwed(worlds, events, i, k - 1);
    }
  }

  /** A pair removed from a protected object by some step is accounted for at every later moment. */
  lemma RemovedStaysAccounted(worlds: seq<World>, events: seq<Event>, i: nat, k: nat, pair: Pair)
    requires Run(worlds, events) && i < k < |worlds| && worlds[i].stored.Some? && Protected(worlds[i].stored.value)
    requires pair in PairsOf(worlds[i].stored) && pair !in PairsOf(worlds[i + 1].stored)
    ensures var claim := ClaimFor(worlds[i].stored.value, worlds[i].stored.value.generation, pair);
      || claim in worlds[k].captured
      || claim in worlds[k].resolved
      || (worlds[k].stored.Some? && Held(worlds[k].stored.value, claim))
  {
    var claim := ClaimFor(worlds[i].stored.value, worlds[i].stored.value.generation, pair);
    assert worlds[i + 1] == Next(worlds[i], events[i]);
    assert claim in Lost(worlds[i].stored, worlds[i + 1].stored);
    OwedStaysOwed(worlds, events, i + 1, k);
    NoObligationIsLost(worlds, events, k);
  }
}
