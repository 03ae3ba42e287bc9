/**
 From a released address back to the servers: the withdrawal state machine, the probe, the DNS
 exchanges and the hosted server put together.
 */
module Release {
  import opened Names
  import opened States
  import opened Evaluator
  import opened Runs
  import Exclusion
  import Order
  import Owners
  import Probe
  import Wire
  import Zones

  // ---------- the probed servers ----------

  /** The DNS as the probe of name n in round i found it: it may have changed between any two probes. */
  type Servers = (nat, nat) -> Wire.Server

  /** What round i observed of its names came from probing. */
  ghost predicate ProbedAt(round: Round, servers: Servers, i: nat) {
    && round.input.Views() != []
    && forall n :: 0 <= n < |Opening(round).checkedNames| && round.input.observe(n).error.None? ==>
         Wire.ProbeSpec(servers(i, n),
                        round.input.Request(Opening(round).checkedNames[n])) == Ok(round.input.observe(n).views)
  }

  /** The view of one checked name through one configured server. */
  function ViewThrough(round: Round, server: Wire.Server, name: Name, via: string): Probe.View {
    Wire.ResolveSpec(server, name, via, "", round.input.spec.domain)
  }

  /** Probing name n of a round asked `via` for `owner`, a name of the chain, and for `family`. */
  ghost predicate Asked(round: Round, server: Wire.Server, n: nat, via: string, owner: Name, family: string) {
    && n < |Opening(round).checkedNames| && via in round.input.policy.servers && family in Probe.FAMILIES
    && var name := Opening(round).checkedNames[n];
       owner in Probe.OwnersOf(name, ViewThrough(round, server, name, via))
  }

  /**
   When a claim is released, each round of its last absence window asked every configured server, for every checked
   name, along the whole chain of links, for both address types, and no reply held the address.
   */
  lemma ReleasedMeansUnserved(rounds: seq<Round>, identity: Identity, k: nat, servers: Servers) returns (j: nat)
    requires Run(rounds, identity) && k < |rounds| && rounds[k].decision.status == Probe.True
    requires forall i :: 0 <= i < |rounds| ==> ProbedAt(rounds[i], servers, i)
    ensures AbsenceWindow(rounds, j, k)
    ensures forall i: nat, n, via, owner, family ::
      j <= i <= k && Asked(rounds[i], servers(i, n), n, via, owner, family) ==>
        !Wire.Serves(servers(i, n), Wire.Question(via, owner, family, true), Address(rounds[i]).addr)
  {
    j := TrueEndsWindow(rounds, identity, k);
    forall i: nat, n, via, owner, family | j <= i <= k && Asked(rounds[i], servers(i, n), n, via, owner, family)
      ensures !Wire.Serves(servers(i, n), Wire.Question(via, owner, family, true), Address(rounds[i]).addr)
    {
      RoundIsUnserved(rounds[i], servers, i, n, via, owner, family);
    }
  }

  lemma RoundIsUnserved(round: Round, servers: Servers, i: nat, n: nat, via: string, owner: Name, family: string)
    requires Absent(round) && ProbedAt(round, servers, i) && Asked(round, servers(i, n), n, via, owner, family)
    ensures !Wire.Serves(servers(i, n), Wire.Question(via, owner, family, true), Address(round).addr)
  {
    var name := Opening(round).checkedNames[n];
    assert NameExcludes(round, name, n);
    CertifiedIsUnserved(round.input.Request(name), round.input.observe(n).views, servers(i, n), via, owner, family,
                        Address(round).addr, round.input.policy.servers);
  }

  lemma CertifiedIsUnserved(request: Probe.Request, views: seq<Probe.View>, server: Wire.Server, via: string,
                            owner: Name, family: string, address: Addr, servers: seq<string>)
    requires request.policy.servers == Order.Sort(servers, (s: string) => s) && via in servers
    requires Probe.Certified(request, views) && request.policy.servers != []
    requires Wire.ProbeSpec(server, request) == Ok(views)
    requires forall v :: v in views ==> Probe.AbsentFrom(address, v)
    requires owner in Probe.OwnersOf(request.name, Wire.ResolveSpec(server, request.name, via, "", request.zone))
    requires family in Probe.FAMILIES
    ensures !Wire.Serves(server, Wire.Question(via, owner, family, true), address)
  {
    Order.SortMembers(servers, (s: string) => s);
    Wire.RecursiveViewIsProbed(server, request, via);
    var view := Wire.ResolveSpec(server, request.name, via, "", request.zone);
    var i :| 0 <= i < |views| && views[i] == view;
    Wire.AbsenceIsTheServers(server, request.name, via, "", request.zone, address, owner, family);
  }

  // ---------- the hosted server ----------

  /** The names a run checks are chosen in its first round. */
  lemma {:induction false} NamesStay(rounds: seq<Round>, identity: Identity, k: nat)
    requires Run(rounds, identity) && k < |rounds|
    ensures Opening(rounds[k]).checkedNames == [CheckedName(rounds[0].input)]
  {
    assert Threaded(rounds, identity, k);
    if k > 0 {
      NamesStay(rounds, identity, k - 1);
      NamesAreKept(rounds, identity, k);
    }
  }

  lemma NamesAreKept(rounds: seq<Round>, identity: Identity, k: nat)
    requires Run(rounds, identity) && 0 < k < |rounds|
    ensures Opening(rounds[k]).checkedNames == Opening(rounds[k - 1]).checkedNames
  {
    assert Proper(rounds[k - 1]) by {
      assert Threaded(rounds, identity, k - 1);
    }
    KeptFacts(rounds[k - 1]);
    OpeningIsCarried(rounds, identity, k);
  }

  /** The label that stands for a wildcard is a host label, so no checked name is "@" below the apex. */
  lemma CheckedIsAskable(input: Input)
    requires HostLabel(input.sample)
    ensures Exclusion.Askable(input.spec, CheckedName(input))
  {
    var domain, name := input.spec.domain, input.claim.name;
    if name.Sub? && Graft(name, domain) == Sub("@", domain) {
      assert Graft(name.parent, domain) == domain && Depth(name.parent) == 0;
    }
    assert Depth(Sub("@", domain)) == Depth(domain) + 1;
  }

  /** The index serves this snapshot for the name. */
  ghost predicate Holds(index: Exclusion.Index, spec: Zones.Spec, name: Name) {
    && Exclusion.Servable(index) && Zones.Accepts(spec) && Owners.WellNamed(spec)
    && index.Lookup(name).Some?
    && var zone := index.Lookup(name).value;
       zone == Zones.Compiled(spec, zone.key, zone.uid)
  }

  /** An index that serves the snapshot of a round for the checked name, and a request for its addresses. */
  ghost predicate Answerable(input: Input, name: Name, index: Exclusion.Index, message: Exclusion.Message) {
    Holds(index, input.spec, name) && Exclusion.AsksAddress(message, name)
  }

  /**
   When a claim is released, no server that held the snapshot of a round of its last absence window could put the
   address into an answer to an A or AAAA question at the checked name, through any links and wildcards.
   */
  lemma ReleasedMeansUnanswered(rounds: seq<Round>, identity: Identity, k: nat) returns (j: nat)
    requires Run(rounds, identity) && k < |rounds| && rounds[k].decision.status == Probe.True
    requires HostLabel(rounds[0].input.sample)
    ensures AbsenceWindow(rounds, j, k)
    ensures forall i, index, message ::
      j <= i <= k && Answerable(rounds[i].input, CheckedName(rounds[0].input), index, message) ==>
        Exclusion.FreeOf(Exclusion.Response(index, message).answer, Address(rounds[i]).addr)
  {
    j := TrueEndsWindow(rounds, identity, k);
    forall i, index, message |
      j <= i <= k && Answerable(rounds[i].input, CheckedName(rounds[0].input), index, message)
      ensures Exclusion.FreeOf(Exclusion.Response(index, message).answer, Address(rounds[i]).addr)
    {
      RoundIsUnanswered(rounds, identity, i, index, message);
    }
  }

  lemma RoundIsUnanswered(rounds: seq<Round>, identity: Identity, i: nat, index: Exclusion.Index,
                          message: Exclusion.Message)
    requires Run(rounds, identity) && i < |rounds| && Absent(rounds[i]) && HostLabel(rounds[0].input.sample)
    requires Answerable(rounds[i].input, CheckedName(rounds[0].input), index, message)
    ensures Exclusion.FreeOf(Exclusion.Response(index, message).answer, Address(rounds[i]).addr)
  {
    NamesStay(rounds, identity, i);
    SameDomain(rounds, identity, i);
    CheckedIsAskable(rounds[0].input);
    AbsentExcludes(rounds[i], CheckedName(rounds[0].input));
    HeldIsClean(rounds[i].input, CheckedName(rounds[0].input), index, message);
  }

  lemma AbsentExcludes(round: Round, name: Name)
    requires Absent(round) && Opening(round).checkedNames == [name]
    ensures Excluded(round.input, name).decision.status == Probe.True
  {
    assert NameExcludes(round, Opening(round).checkedNames[0], 0);
  }

  lemma SameDomain(rounds: seq<Round>, identity: Identity, i: nat)
    requires Run(rounds, identity) && i < |rounds|
    ensures rounds[i].input.spec.domain == rounds[0].input.spec.domain
  {
    assert Threaded(rounds, identity, 0) && Threaded(rounds, identity, i);
  }

  lemma HeldIsClean(input: Input, name: Name, index: Exclusion.Index, message: Exclusion.Message)
    requires input.claim.address.Parsed? && Excluded(input, name).decision.status == Probe.True
    requires Holds(index, input.spec, name) && Exclusion.Askable(input.spec, name)
    requires Exclusion.AsksAddress(message, name)
    ensures Exclusion.FreeOf(Exclusion.Response(index, message).answer, input.claim.address.addr)
  {
    Exclusion.ExclusionIsSound(input.spec, index.Lookup(name).value, index, name, input.claim.address.addr, message);
  }
}
