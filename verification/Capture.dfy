/**
 Capturing retirement entries as withdrawal claims (endpointrecordset/withdrawal.go).

 A `Pass` is one run of the capture loop against the API server. It creates a claim for every pair
 that some provider still owes a withdrawal for, and stops at the first pair it cannot settle.
 */
module Capture {
  import opened Names
  import opened Retirement

  datatype ZoneRef = ZoneRef(namespace: string, name: string, domain: string)

  /** Where a pair was published: unknown, nowhere that needs a withdrawal, or in a protected zone. */
  datatype Binding = Unresolved(error: string) | Free | Bound(zone: ZoneRef)

  /** The hash that names a claim is injective in these parts. */
  datatype ClaimID = ClaimID(uid: nat, generation: nat, hostname: Hostname, address: Addr)

  datatype Withdrawal = Withdrawal(zone: ZoneRef, owner: string, address: Addr, source: ClaimID,
                                   deleting: bool, owned: bool, finalized: bool)

  /** One call of the capture closure. */
  datatype Demand = Demand(hostname: Hostname, address: AddressText, generation: nat)

  function TrimSuffix(text: string, suffix: string): string {
    if |suffix| <= |text| && text[|text| - |suffix|..] == suffix then text[..|text| - |suffix|] else text
  }

  function CanonicalHostname(hostname: Hostname): Hostname {
    LowerLabel(TrimSuffix(hostname, "."))
  }

  function RelativeRecordName(hostname: Hostname, domain: string): string {
    var trimmed, zone := TrimSuffix(hostname, "."), TrimSuffix(domain, ".");
    if trimmed == zone then "@" else TrimSuffix(trimmed, "." + zone)
  }

  function ClaimOf(uid: nat, demand: Demand): ClaimID
    requires Readable(demand.address)
  {
    ClaimID(uid, demand.generation, CanonicalHostname(demand.hostname), demand.address.addr.Unmap())
  }

  function WithdrawalFor(zone: ZoneRef, id: ClaimID): Withdrawal {
    Withdrawal(zone, RelativeRecordName(id.hostname, zone.domain), id.address, id, false, false, false)
  }

  // ---------- what a pass has to settle ----------

  function TargetDemands(entry: RetiredTarget, hostnames: seq<Hostname>): set<Demand> {
    set h | h in hostnames :: Demand(h, entry.address, entry.generation)
  }

  function HostnameDemands(entry: RetiredHostname, addresses: seq<AddressText>): set<Demand> {
    set a | a in addresses :: Demand(entry.hostname, a, entry.generation)
  }

  function LiveDemands(ers: Ers, target: Target, hostnames: seq<Hostname>): set<Demand> {
    if target.isAddress then set h | h in hostnames :: Demand(h, target.value, ers.generation) else {}
  }

  function AllTargetDemands(entries: seq<RetiredTarget>): set<Demand> {
    set e, d | e in entries && d in TargetDemands(e, e.hostnames) :: d
  }

  function AllHostnameDemands(entries: seq<RetiredHostname>): set<Demand> {
    set e, d | e in entries && d in HostnameDemands(e, e.addresses) :: d
  }

  function AllLiveDemands(ers: Ers, targets: seq<Target>): set<Demand> {
    set t, d | t in targets && d in LiveDemands(ers, t, ers.spec.hostnames) :: d
  }

  function Demands(ers: Ers, includeLive: bool): set<Demand> {
    AllTargetDemands(ers.spec.retiredTargets) + AllHostnameDemands(ers.spec.retiredHostnames)
    + if includeLive && Protected(ers) then AllLiveDemands(ers, ers.spec.targets) else {}
  }

  // ---------- the pass ----------

  class Pass {
    const ers: Ers
    /** The zone and provider lookups of this pass. */
    const bind: (Hostname, Addr) -> Binding
    /** Claims whose creation or read fails at the API server. */
    const fails: ClaimID -> bool
    /** The claims at the API server. */
    var withdrawals: map<ClaimID, Withdrawal>
    var bindings: map<(Hostname, Addr), Binding>
    var captured: set<ClaimID>

    constructor (ers: Ers, bind: (Hostname, Addr) -> Binding, fails: ClaimID -> bool,
                 withdrawals: map<ClaimID, Withdrawal>)
      ensures this.ers == ers && this.bind == bind && this.fails == fails && this.withdrawals == withdrawals
      ensures bindings == map[] && captured == {}
    {
      this.ers, this.bind, this.fails, this.withdrawals := ers, bind, fails, withdrawals;
      bindings, captured := map[], {};
    }

    function Where(demand: Demand): Binding
      requires Readable(demand.address)
    {
      bind(CanonicalHostname(demand.hostname), demand.address.addr.Unmap())
    }

    /** Why a demand cannot be settled, given the claims before the pass. */
    predicate Blocked(before: map<ClaimID, Withdrawal>, demand: Demand) {
      || !Readable(demand.address)
      || Where(demand).Unresolved?
      || (Where(demand).Bound? &&
          var id := ClaimOf(ers.uid, demand);
          || ers.uid == 0 || demand.generation < 1 || fails(id)
          || (id in before && before[id] != WithdrawalFor(Where(demand).zone, id)))
    }

    predicate Claims(demand: Demand, id: ClaimID) {
      Readable(demand.address) && Where(demand).Bound? && ClaimOf(ers.uid, demand) == id
    }

    /** The claims are those before the pass and one for each settled demand that is bound. */
    ghost predicate Holds(claims: map<ClaimID, Withdrawal>, before: map<ClaimID, Withdrawal>, settled: set<Demand>) {
      && (forall id :: id in claims <==> id in before || exists d :: d in settled && Claims(d, id))
      && (forall id :: id in before ==> claims[id] == before[id])
      && (forall d :: d in settled ==> !Blocked(before, d))
      && (forall d, id :: d in settled && Claims(d, id) ==> claims[id] == WithdrawalFor(Where(d).zone, id))
    }

    ghost predicate Registered(before: map<ClaimID, Withdrawal>, settled: set<Demand>)
      reads this
    {
      && Holds(withdrawals, before, settled)
      && (forall key :: key in bindings ==> bindings[key] == bind(key.0, key.1) && !bindings[key].Unresolved?)
      && (forall id :: id in captured ==> exists d :: d in settled && Claims(d, id))
    }

    method CaptureOne(demand: Demand, ghost before: map<ClaimID, Withdrawal>, ghost settled: set<Demand>)
      returns (ok: bool)
      requires Registered(before, settled)
      modifies this
      ensures ok <==> !Blocked(before, demand)
      ensures Registered(before, if ok then settled + {demand} else settled)
    {
      if !Readable(demand.address) {
        return false;
      }
      var address := demand.address.addr.Unmap();
      var hostname := CanonicalHostname(demand.hostname);
      var selected := Select(hostname, address);
      if selected.Unresolved? {
        return false;
      }
      if selected.Free? {
        FreeHolds(withdrawals, before, settled, demand);
        return true;
      }
      if ers.uid == 0 || demand.generation < 1 {
        return false;
      }
      ok := CaptureBound(demand, ClaimID(ers.uid, demand.generation, hostname, address), selected.zone, before,
                         settled);
    }

    method Select(hostname: Hostname, address: Addr) returns (selected: Binding)
      requires forall key :: key in bindings ==> bindings[key] == bind(key.0, key.1) && !bindings[key].Unresolved?
      modifies this`bindings
      ensures selected == bind(hostname, address)
      ensures forall key :: key in bindings ==> bindings[key] == bind(key.0, key.1) && !bindings[key].Unresolved?
    {
      if (hostname, address) in bindings {
        return bindings[(hostname, address)];
      }
      selected := bind(hostname, address);
      if !selected.Unresolved? {
        bindings := bindings[(hostname, address) := selected];
      }
    }

    method CaptureBound(demand: Demand, id: ClaimID, zone: ZoneRef, ghost before: map<ClaimID, Withdrawal>,
                        ghost settled: set<Demand>) returns (ok: bool)
      requires Registered(before, settled) && Claims(demand, id) && Where(demand).zone == zone
      requires ers.uid != 0 && demand.generation >= 1
      modifies this`withdrawals, this`captured
      ensures ok <==> !Blocked(before, demand)
      ensures Registered(before, if ok then settled + {demand} else settled)
    {
      if id in captured {
        SameClaim(before, settled, demand, id);
        return true;
      }
      BlockedNow(withdrawals, before, settled, demand, id);
      if !Blocked(before, demand) {
        EnsureHolds(withdrawals, before, settled, demand, id);
      }
      ok := Ensure(id, WithdrawalFor(zone, id));
      if ok {
        captured := captured + {id};
      }
    }

    lemma FreeHolds(claims: map<ClaimID, Withdrawal>, before: map<ClaimID, Withdrawal>, settled: set<Demand>,
                    demand: Demand)
      requires Holds(claims, before, settled) && Readable(demand.address) && Where(demand).Free?
      ensures Holds(claims, before, settled + {demand})
    {
      assert forall id :: !Claims(demand, id);
    }

    /** A claim that is there without having been there before is one this pass made, of the wanted shape. */
    lemma BlockedNow(claims: map<ClaimID, Withdrawal>, before: map<ClaimID, Withdrawal>, settled: set<Demand>,
                     demand: Demand, id: ClaimID)
      requires Holds(claims, before, settled) && Claims(demand, id) && ers.uid != 0 && demand.generation >= 1
      ensures Blocked(before, demand) <==>
        fails(id) || (id in claims && claims[id] != WithdrawalFor(Where(demand).zone, id))
    {
      if id in claims && id !in before {
        var other :| other in settled && Claims(other, id);
        assert Where(other) == Where(demand);
      }
    }

    lemma EnsureHolds(claims: map<ClaimID, Withdrawal>, before: map<ClaimID, Withdrawal>, settled: set<Demand>,
                      demand: Demand, id: ClaimID)
      requires Holds(claims, before, settled) && Claims(demand, id) && !Blocked(before, demand)
      requires id in claims ==> claims[id] == WithdrawalFor(Where(demand).zone, id)
      ensures Holds(claims[id := WithdrawalFor(Where(demand).zone, id)], before, settled + {demand})
    {
      var wanted := WithdrawalFor(Where(demand).zone, id);
      var after := settled + {demand};
      forall d, key | d in after && Claims(d, key)
        ensures claims[id := wanted][key] == WithdrawalFor(Where(d).zone, key)
      {
        if key == id {
          assert Where(d) == Where(demand);
        }
      }
      forall key
        ensures key in claims[id := wanted] <==> key in before || exists d :: d in after && Claims(d, key)
      {
        if key != id && key in claims && key !in before {
          var d :| d in settled && Claims(d, key);
          assert d in after;
        }
        assert demand in after;
      }
    }

    /** Create, or accept an existing claim of exactly the wanted shape. */
    method Ensure(id: ClaimID, desired: Withdrawal) returns (ok: bool)
      requires !desired.deleting && !desired.owned && !desired.finalized
      modifies this`withdrawals
      ensures ok <==> !fails(id) && (id in old(withdrawals) ==> old(withdrawals)[id] == desired)
      ensures withdrawals == if ok then old(withdrawals)[id := desired] else old(withdrawals)
    {
      if fails(id) {
        return false;
      }
      if id !in withdrawals {
        withdrawals := withdrawals[id := desired];
        return true;
      }
      var current := withdrawals[id];
      if current.deleting || current.owned || current.finalized || current != desired {
        return false;
      }
      ok := true;
    }

    /** A claim already captured in this pass stands for every demand with its parts. */
    lemma SameClaim(before: map<ClaimID, Withdrawal>, settled: set<Demand>, demand: Demand, id: ClaimID)
      requires Registered(before, settled) && id in captured && Claims(demand, id)
      ensures !Blocked(before, demand) && Registered(before, settled + {demand})
    {
      var other :| other in settled && Claims(other, id);
      assert Where(other) == Where(demand);
      assert other in settled + {demand};
    }

    // ---------- the loops ----------

    method CaptureTarget(entry: RetiredTarget, ghost before: map<ClaimID, Withdrawal>, ghost settled: set<Demand>)
      returns (ok: bool, ghost now: set<Demand>)
      requires Registered(before, settled)
      modifies this
      ensures Registered(before, now)
      ensures ok ==> now == settled + TargetDemands(entry, entry.hostnames)
      ensures !ok ==> settled <= now <= settled + TargetDemands(entry, entry.hostnames)
      ensures !ok ==> exists d :: d in TargetDemands(entry, entry.hostnames) && Blocked(before, d)
    {
      now := settled;
      var i := 0;
      while i < |entry.hostnames|
        invariant 0 <= i <= |entry.hostnames|
        invariant now == settled + TargetDemands(entry, entry.hostnames[..i]) && Registered(before, now)
      {
        var demand := Demand(entry.hostnames[i], entry.address, entry.generation);
        ok := CaptureOne(demand, before, now);
        assert demand in TargetDemands(entry, entry.hostnames);
        if !ok {
          return;
        }
        assert entry.hostnames[..i + 1] == entry.hostnames[..i] + [entry.hostnames[i]];
        now := now + {demand};
        i := i + 1;
      }
      assert entry.hostnames[..i] == entry.hostnames;
      ok := true;
    }

    method CaptureHostname(entry: RetiredHostname, ghost before: map<ClaimID, Withdrawal>, ghost settled: set<Demand>)
      returns (ok: bool, ghost now: set<Demand>)
      requires Registered(before, settled)
      modifies this
      ensures Registered(before, now)
      ensures ok ==> now == settled + HostnameDemands(entry, entry.addresses)
      ensures !ok ==> settled <= now <= settled + HostnameDemands(entry, entry.addresses)
      ensures !ok ==> exists d :: d in HostnameDemands(entry, entry.addresses) && Blocked(before, d)
    {
      now := settled;
      var i := 0;
      while i < |entry.addresses|
        invariant 0 <= i <= |entry.addresses|
        invariant now == settled + HostnameDemands(entry, entry.addresses[..i]) && Registered(before, now)
      {
        var demand := Demand(entry.hostname, entry.addresses[i], entry.generation);
        ok := CaptureOne(demand, before, now);
        assert demand in HostnameDemands(entry, entry.addresses);
        if !ok {
          return;
        }
        assert entry.addresses[..i + 1] == entry.addresses[..i] + [entry.addresses[i]];
        now := now + {demand};
        i := i + 1;
      }
      assert entry.addresses[..i] == entry.addresses;
      ok := true;
    }

    method CaptureLive(target: Target, ghost before: map<ClaimID, Withdrawal>, ghost settled: set<Demand>)
      returns (ok: bool, ghost now: set<Demand>)
      requires Registered(before, settled)
      modifies this
      ensures Registered(before, now)
      ensures ok ==> now == settled + LiveDemands(ers, target, ers.spec.hostnames)
      ensures !ok ==> settled <= now <= settled + LiveDemands(ers, target, ers.spec.hostnames)
      ensures !ok ==> exists d :: d in LiveDemands(ers, target, ers.spec.hostnames) && Blocked(before, d)
    {
      now := settled;
      if !target.isAddress {
        return true, now;
      }
      var hostnames := ers.spec.hostnames;
      var i := 0;
      while i < |hostnames|
        invariant 0 <= i <= |hostnames|
        invariant now == settled + LiveDemands(ers, target, hostnames[..i]) && Registered(before, now)
      {
        var demand := Demand(hostnames[i], target.value, ers.generation);
        ok := CaptureOne(demand, before, now);
        assert demand in LiveDemands(ers, target, hostnames);
        if !ok {
          return;
        }
        assert hostnames[..i + 1] == hostnames[..i] + [hostnames[i]];
        now := now + {demand};
        i := i + 1;
      }
      assert hostnames[..i] == hostnames;
      ok := true;
    }

    method CaptureTargets(entries: seq<RetiredTarget>, ghost before: map<ClaimID, Withdrawal>,
                          ghost settled: set<Demand>) returns (ok: bool, ghost now: set<Demand>)
      requires Registered(before, settled)
      modifies this
      ensures Registered(before, now)
      ensures ok ==> now == settled + AllTargetDemands(entries)
      ensures !ok ==> settled <= now <= settled + AllTargetDemands(entries)
      ensures !ok ==> exists d :: d in AllTargetDemands(entries) && Blocked(before, d)
    {
      now := settled;
      var i := 0;
      while i < |entries|
        invariant 0 <= i <= |entries|
        invariant now == settled + AllTargetDemands(entries[..i]) && Registered(before, now)
      {
        ghost var one := TargetDemands(entries[i], entries[i].hostnames);
        assert entries[i] in entries && one <= AllTargetDemands(entries);
        ok, now := CaptureTarget(entries[i], before, now);
        if !ok {
          return;
        }
        assert entries[..i + 1] == entries[..i] + [entries[i]];
        assert AllTargetDemands(entries[..i + 1]) == AllTargetDemands(entries[..i]) + one;
        i := i + 1;
      }
      assert entries[..i] == entries;
      ok := true;
    }

    method CaptureHostnames(entries: seq<RetiredHostname>, ghost before: map<ClaimID, Withdrawal>,
                            ghost settled: set<Demand>) returns (ok: bool, ghost now: set<Demand>)
      requires Registered(before, settled)
      modifies this
      ensures Registered(before, now)
      ensures ok ==> now == settled + AllHostnameDemands(entries)
      ensures !ok ==> settled <= now <= settled + AllHostnameDemands(entries)
      ensures !ok ==> exists d :: d in AllHostnameDemands(entries) && Blocked(before, d)
    {
      now := settled;
      var i := 0;
      while i < |entries|
        invariant 0 <= i <= |entries|
        invariant now == settled + AllHostnameDemands(entries[..i]) && Registered(before, now)
      {
        ghost var one := HostnameDemands(entries[i], entries[i].addresses);
        assert entries[i] in entries && one <= AllHostnameDemands(entries);
        ok, now := CaptureHostname(entries[i], before, now);
        if !ok {
          return;
        }
        assert entries[..i + 1] == entries[..i] + [entries[i]];
        assert AllHostnameDemands(entries[..i + 1]) == AllHostnameDemands(entries[..i]) + one;
        i := i + 1;
      }
      assert entries[..i] == entries;
      ok := true;
    }

    method CaptureLives(targets: seq<Target>, ghost before: map<ClaimID, Withdrawal>, ghost settled: set<Demand>)
      returns (ok: bool, ghost now: set<Demand>)
      requires Registered(before, settled)
      modifies this
      ensures Registered(before, now)
      ensures ok ==> now == settled + AllLiveDemands(ers, targets)
      ensures !ok ==> settled <= now <= settled + AllLiveDemands(ers, targets)
      ensures !ok ==> exists d :: d in AllLiveDemands(ers, targets) && Blocked(before, d)
    {
      now := settled;
      var i := 0;
      while i < |targets|
        invariant 0 <= i <= |targets|
        invariant now == settled + AllLiveDemands(ers, targets[..i]) && Registered(before, now)
      {
        ghost var one := LiveDemands(ers, targets[i], ers.spec.hostnames);
        assert targets[i] in targets && one <= AllLiveDemands(ers, targets);
        ok, now := CaptureLive(targets[i], before, now);
        if !ok {
          return;
        }
        assert targets[..i + 1] == targets[..i] + [targets[i]];
        assert AllLiveDemands(ers, targets[..i + 1]) == AllLiveDemands(ers, targets[..i]) + one;
        i := i + 1;
      }
      assert targets[..i] == targets;
      ok := true;
    }

    /**
     A pass succeeds exactly when the entries are within their limits and no demand is blocked. It then
     has a claim for every bound demand and no other new claim; a pass that fails has lost none.
     */
    method CaptureWithdrawals(includeLive: bool) returns (ok: bool, ghost settled: set<Demand>)
      requires bindings == map[] && captured == {}
      modifies this
      ensures ok <==> InLimits(ers.spec) && forall d :: d in Demands(ers, includeLive) ==> !Blocked(old(withdrawals), d)
      ensures settled <= Demands(ers, includeLive) && (ok ==> settled == Demands(ers, includeLive))
      ensures Registered(old(withdrawals), settled)
    {
      ghost var before := withdrawals;
      settled := {};
      var limits := CheckLimits();
      if !limits {
        return false, settled;
      }
      ok, settled := CaptureTargets(ers.spec.retiredTargets, before, settled);
      if !ok {
        return;
      }
      ok, settled := CaptureHostnames(ers.spec.retiredHostnames, before, settled);
      if !ok {
        return;
      }
      if includeLive && Protected(ers) {
        ok, settled := CaptureLives(ers.spec.targets, before, settled);
      }
    }

    /** What a pass has settled is free of obligation or has a claim. */
    lemma SettledIsClaimedOrFree(before: map<ClaimID, Withdrawal>, settled: set<Demand>, demand: Demand)
      requires Registered(before, settled) && demand in settled
      ensures Readable(demand.address) && (Where(demand).Free? || ClaimOf(ers.uid, demand) in withdrawals)
    {
      assert !Blocked(before, demand);
      if Where(demand).Bound? {
        assert Claims(demand, ClaimOf(ers.uid, demand));
      }
    }

    method CheckLimits() returns (ok: bool)
      ensures ok <==> InLimits(ers.spec)
    {
      if |ers.spec.retiredTargets| > MAX_RETIRED_TARGETS || |ers.spec.retiredHostnames| > MAX_RETIRED_HOSTNAMES {
        return false;
      }
      var i := 0;
      while i < |ers.spec.retiredTargets|
        invariant 0 <= i <= |ers.spec.retiredTargets|
        invariant forall e :: e in ers.spec.retiredTargets[..i] ==> |e.hostnames| <= MAX_RETIRED_HOSTNAMES
      {
        if |ers.spec.retiredTargets[i].hostnames| > MAX_RETIRED_HOSTNAMES {
          return false;
        }
        i := i + 1;
      }
      var j := 0;
      while j < |ers.spec.retiredHostnames|
        invariant 0 <= j <= |ers.spec.retiredHostnames|
        invariant forall e :: e in ers.spec.retiredHostnames[..j] ==> |e.addresses| <= MAX_RETIRED_TARGETS
      {
        if |ers.spec.retiredHostnames[j].addresses| > MAX_RETIRED_TARGETS {
          return false;
        }
        j := j + 1;
      }
      assert ers.spec.retiredTargets[..i] == ers.spec.retiredTargets;
      assert ers.spec.retiredHostnames[..j] == ers.spec.retiredHostnames;
      ok := true;
    }
  }
}
