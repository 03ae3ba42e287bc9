/**
 One evaluation of a withdrawal claim (withdrawal/evaluator.go).

 `Evaluate` works on a private copy of the previous state. `Evaluated` is its meaning as a relation
 between the memory before, the input, the memory after and the decision.
 */
module Evaluator {
  import opened Names
  import opened States
  import Order
  import Zones
  import Exclusion
  import Probe

  /** An operator's permission to release without proof; it must name itself, its digest and its reservation. */
  datatype Waiver = Waiver(name: string, uid: string, digest: string, reservation: string) {
    predicate Complete() { name != "" && uid != "" && digest != "" && reservation != "" }
  }

  datatype Claim = Claim(reference: Reference, claimNamespace: string, claimName: string, allowed: bool,
                         generation: int, name: Name, address: AddressText, canonicalText: bool, waiver: Option<Waiver>)

  datatype ProbeError = DeadlineExceeded | Other(text: string)

  /** What the probe of one checked name reported, and how long after the start it had ended. */
  datatype Observation = Observation(views: seq<Probe.View>, error: Option<ProbeError>, elapsed: int)

  /**
   `endpoint` tells which texts are canonical IP endpoints, `observe` is the outcome of probing the
   i-th checked name, `sample` the label that stands for a wildcard, `elapsed` the last clock reading.
   */
  datatype Input = Input(claim: Claim, spec: Zones.Spec, served: bool, policy: Probe.Policy, soaMinimum: nat,
                         now: Time, started: Time, resolver: bool, endpoint: string -> bool,
                         observe: nat -> Observation, elapsed: int, sample: Label)
  {
    function Start(): Time { if now == 0 then started else now }

    predicate InTime() { 0 <= elapsed <= 300 * SECOND }

    /** The time of the outcome; a probe that took too long does not advance it. */
    function End(): Time { if InTime() then Start() + elapsed else Start() }

    function Views(): seq<string> { Order.Sort(policy.servers, (s: string) => s) }

    function Required(): (ids: seq<string>)
      ensures |ids| == |Views()|
    {
      seq(|Views()|, i requires 0 <= i < |Views()| => Probe.RecursiveID(Views()[i]))
    }

    function ProbePolicy(): Probe.Policy {
      Probe.Policy(if policy.mode == "" then "Recursive" else policy.mode, Views(),
                   Order.Sort(policy.expectedNameservers, (s: string) => s))
    }

    function Print(): Fingerprint { Fingerprint(ProbePolicy(), soaMinimum, spec.digest) }

    function Request(name: Name): Probe.Request {
      Probe.Request(name, spec.domain, ProbePolicy(), None, claim.address)
    }
  }

  // ---------- the initial state ----------

  function IdentityOf(input: Input): Identity {
    Bound(input.spec.domain, input.claim.reference, input.claim.generation, input.claim.name, input.claim.address)
  }

  function CheckedName(input: Input): Name {
    if input.claim.name == Zones.APEX then input.spec.domain
    else if Zones.Wild(input.claim.name) then Graft(Sub(input.sample, input.claim.name.parent), input.spec.domain)
    else Graft(input.claim.name, input.spec.domain)
  }

  function Initial(input: Input, previous: Option<Memory>): Memory {
    if previous.None? then Unseen(IdentityOf(input), CheckedName(input))
    else
      var memory := previous.value;
      if memory.identity == IdentityOf(input) then
        memory.(missingHistory := memory.missingHistory || memory.checkedNames == []
                                  || (memory.lastProbe != 0 && memory.policy.None?))
      else
        Unseen(IdentityOf(input), CheckedName(input)).(
          missingHistory := memory.missingHistory,
          positive := if memory.identity.Anonymous? then memory.positive else map[])
  }

  method InitialState(input: Input, previous: State?) returns (state: State)
    ensures fresh(state)
    ensures state.Value() == Initial(input, if previous == null then None else Some(previous.Value()))
  {
    var identity := IdentityOf(input);
    if previous != null && previous.identity == identity {
      state := new State.Clone(previous);
      state.missingHistory := state.missingHistory || |state.checkedNames| == 0
                              || (state.lastProbe != 0 && state.policy.None?);
      return;
    }
    state := new State(identity, CheckedName(input));
    if previous != null {
      state.missingHistory := previous.missingHistory;
      if previous.identity.Anonymous? {
        state.positive := previous.positive;
      }
    }
  }

  // ---------- the verdict ----------

  predicate ValidClaim(input: Input) {
    var claim := input.claim;
    && claim.address.Parsed? && claim.address.addr.Zone() == "" && !claim.address.addr.Mapped? && claim.canonicalText
    && claim.allowed
    && claim.reference.uid != "" && claim.claimNamespace != "" && claim.claimName != ""
    && claim.reference.namespace == claim.claimNamespace && claim.reference.name == claim.claimName
    && claim.generation >= 1
    && input.spec.digest != ""
    && ValidName(input.spec.domain)
    && ValidName(
         if claim.name == Zones.APEX || claim.name == Zones.Star(Root) then input.spec.domain
         else if Zones.Wild(claim.name) then Graft(claim.name.parent, input.spec.domain)
         else Graft(claim.name, input.spec.domain))
  }

  /** One through three distinct canonical endpoints. */
  ghost predicate ValidServers(servers: seq<string>, endpoint: string -> bool) {
    && 1 <= |servers| <= 3
    && (forall i :: 0 <= i < |servers| ==> endpoint(servers[i]))
    && forall i, j :: 0 <= i < j < |servers| ==> servers[i] != servers[j]
  }

  method CheckServers(servers: seq<string>, endpoint: string -> bool) returns (ok: bool)
    ensures ok <==> ValidServers(servers, endpoint)
  {
    if |servers| == 0 || |servers| > 3 {
      return false;
    }
    var i := 0;
    while i < |servers|
      invariant 0 <= i <= |servers|
      invariant forall j :: 0 <= j < i ==> endpoint(servers[j])
      invariant forall j, k :: 0 <= j < k < i ==> servers[j] != servers[k]
    {
      if !endpoint(servers[i]) {
        return false;
      }
      if servers[i] in servers[..i] {
        return false;
      }
      assert forall j :: 0 <= j < i ==> servers[..i][j] == servers[j];
      i := i + 1;
    }
    ok := true;
  }

  function ErrorCode(error: ProbeError): string {
    match error
    case DeadlineExceeded => "timeout"
    case Other(text) =>
      if text in {"resolver-config", "invalid-response", "probe-limit", "chain-limit"} then text else "transport"
  }

  function Failed(code: string): Probe.Decision {
    Probe.WithdrawalFailed(code).decision
  }

  function Combine(current: Probe.Decision, next: Probe.Decision): Probe.Decision {
    if next.status == Probe.Unknown || (next.status == Probe.False && current.status == Probe.True) then next
    else current
  }

  function Excluded(input: Input, name: Name): Probe.WithdrawalDecision
    requires input.claim.address.Parsed?
  {
    Exclusion.ExclusionSpec(input.spec, name, input.claim.address.addr)
  }

  ghost function Observed(input: Input, name: Name, i: nat): Probe.WithdrawalDecision {
    Probe.EvaluateSpec(input.Request(name), input.observe(i).views)
  }

  ghost function ProbeVerdict(input: Input, name: Name, i: nat): Probe.Decision {
    if input.observe(i).error.Some? then Failed(ErrorCode(input.observe(i).error.value))
    else Observed(input, name, i).decision
  }

  /** The combined judgement of the first n names: for each the snapshot, then its probe. */
  ghost function CombineAll(local: nat -> Probe.Decision, probed: nat -> Probe.Decision, n: nat): Probe.Decision {
    if n == 0 then Probe.VERIFIED
    else Combine(Combine(CombineAll(local, probed, n - 1), local(n - 1)), probed(n - 1))
  }

  function LocalPart(input: Input, names: seq<Name>): nat -> Probe.Decision
    requires input.claim.address.Parsed?
  {
    (i: nat) => if i < |names| then Excluded(input, names[i]).decision else Probe.VERIFIED
  }

  ghost function ProbedPart(input: Input, names: seq<Name>): nat -> Probe.Decision {
    (i: nat) => if i < |names| then ProbeVerdict(input, names[i], i) else Probe.VERIFIED
  }

  ghost function Judged(input: Input, names: seq<Name>): Probe.Decision
    requires input.claim.address.Parsed?
  {
    CombineAll(LocalPart(input, names), ProbedPart(input, names), |names|)
  }

  /** When the i-th probe was read: a clock that ran backwards counts as no time passed. */
  function ReadAt(input: Input, i: nat): Time {
    input.Start() + if input.observe(i).elapsed < 0 then 0 else input.observe(i).elapsed
  }

  /** The expiries after the sightings of the first n names. */
  ghost function SightAll(step: (nat, map<Cache, Time>) -> map<Cache, Time>, n: nat,
                          positive: map<Cache, Time>): map<Cache, Time> {
    if n == 0 then positive else step(n - 1, SightAll(step, n - 1, positive))
  }

  ghost function Sight(input: Input, name: Name, i: nat, positive: map<Cache, Time>): map<Cache, Time>
    requires input.claim.address.Parsed?
  {
    RetainAll(RetainAll(positive, name, Excluded(input, name).cache, input.Start()), name,
              Observed(input, name, i).cache, ReadAt(input, i))
  }

  ghost function SightPart(input: Input, names: seq<Name>): (nat, map<Cache, Time>) -> map<Cache, Time>
    requires input.claim.address.Parsed?
  {
    (i: nat, positive: map<Cache, Time>) => if i < |names| then Sight(input, names[i], i, positive) else positive
  }

  ghost function Sighted(input: Input, names: seq<Name>, positive: map<Cache, Time>): map<Cache, Time>
    requires input.claim.address.Parsed?
  {
    SightAll(SightPart(input, names), |names|, positive)
  }

  ghost predicate Probes(input: Input) {
    ValidClaim(input) && input.resolver && ValidServers(input.Views(), input.endpoint)
  }

  method ProbeNames(input: Input, state: State) returns (decision: Probe.Decision)
    requires input.claim.address.Parsed?
    modifies state`positive
    ensures decision == Judged(input, state.checkedNames)
    ensures state.positive == Sighted(input, state.checkedNames, old(state.positive))
  {
    var names := state.checkedNames;
    decision := ProbeEach(input, state, names, LocalPart(input, names), ProbedPart(input, names),
                          SightPart(input, names));
  }

  /** The loop over the names, for any judgements that agree with what each name yields. */
  method ProbeEach(input: Input, state: State, names: seq<Name>, ghost local: nat -> Probe.Decision,
                   ghost probed: nat -> Probe.Decision, ghost step: (nat, map<Cache, Time>) -> map<Cache, Time>)
                     returns (decision: Probe.Decision)
    requires input.claim.address.Parsed?
    requires Yields(input, names, local, probed, step)
    modifies state`positive
    ensures decision == CombineAll(local, probed, |names|)
    ensures state.positive == SightAll(step, |names|, old(state.positive))
  {
    decision := Probe.VERIFIED;
    var i := 0;
    while i < |names|
      invariant 0 <= i <= |names|
      invariant Sofar(local, probed, step, i, old(state.positive), decision, state.positive)
    {
      decision := ProbeName(input, state, names, i, decision, local, probed, step, old(state.positive));
      i := i + 1;
    }
  }

  /** The judgement and the expiries after the first n names. */
  ghost predicate Sofar(local: nat -> Probe.Decision, probed: nat -> Probe.Decision,
                        step: (nat, map<Cache, Time>) -> map<Cache, Time>,
                        n: nat, before: map<Cache, Time>, decision: Probe.Decision, positive: map<Cache, Time>)
  {
    decision == CombineAll(local, probed, n) && positive == SightAll(step, n, before)
  }

  ghost predicate Yields(input: Input, names: seq<Name>, local: nat -> Probe.Decision, probed: nat -> Probe.Decision,
                         step: (nat, map<Cache, Time>) -> map<Cache, Time>)
    requires input.claim.address.Parsed?
  {
    local == LocalPart(input, names) && probed == ProbedPart(input, names) && step == SightPart(input, names)
  }

  method ProbeName(input: Input, state: State, names: seq<Name>, i: nat, sofar: Probe.Decision,
                   ghost local: nat -> Probe.Decision,
                   ghost probed: nat -> Probe.Decision, ghost step: (nat, map<Cache, Time>) -> map<Cache, Time>,
                   ghost before: map<Cache, Time>) returns (decision: Probe.Decision)
    requires input.claim.address.Parsed? && i < |names| && Yields(input, names, local, probed, step)
    requires Sofar(local, probed, step, i, before, sofar, state.positive)
    modifies state`positive
    ensures Sofar(local, probed, step, i + 1, before, decision, state.positive)
  {
    ghost var known := state.positive;
    var name := names[i];
    var snapshot := Exclusion.SnapshotExclusion(input.spec, name, input.claim.address.addr);
    state.RetainPositive(name, snapshot.cache, input.Start());
    var observed := input.observe(i);
    var one := Probe.EvaluateWithdrawal(input.Request(name), observed.views);
    state.RetainPositive(name, one.cache, ReadAt(input, i));
    decision := Combine(Combine(sofar, snapshot.decision),
                        if observed.error.Some? then Failed(ErrorCode(observed.error.value)) else one.decision);
    assert decision == Combine(Combine(sofar, local(i)), probed(i));
    assert state.positive == step(i, known);
  }

  // ---------- gaps and policy ----------

  /** The last probe is in the future, or the next one is overdue. */
  predicate Gap(memory: Memory, now: Time) {
    memory.lastProbe != 0 && (now < memory.lastProbe || memory.nextProbe == 0 || memory.nextProbe + 300 * SECOND < now)
  }

  predicate Changed(input: Input, memory: Memory) {
    memory.policy.Some? && memory.policy.value != input.Print()
  }

  predicate Weakened(input: Input, memory: Memory) {
    || memory.missingHistory
    || input.soaMinimum < memory.soaMinimum
    || exists v :: v in memory.views && v !in input.Required()
  }

  method CheckFloor(input: Input, state: State) returns (weakened: bool)
    ensures weakened == Weakened(input, state.Value())
  {
    weakened := state.missingHistory || input.soaMinimum < state.soaMinimum;
    var i := 0;
    while i < |state.views|
      invariant 0 <= i <= |state.views|
      invariant weakened <==> state.missingHistory || input.soaMinimum < state.soaMinimum
                              || exists v :: v in state.views[..i] && v !in input.Required()
    {
      assert state.views[..i + 1] == state.views[..i] + [state.views[i]];
      weakened := weakened || state.views[i] !in input.Required();
      i := i + 1;
    }
    assert state.views[..i] == state.views;
  }

  function ClearedIf(clear: bool, memory: Memory): Memory {
    if clear then Invalidated(memory) else memory
  }

  /** What the claim, the resolver, the snapshot and the probes say, lateness and policy left aside. */
  ghost function Judgement(input: Input, names: seq<Name>): Probe.Decision {
    if !ValidClaim(input) then Failed("invalid-response")
    else if !Probes(input) then Failed("resolver-config")
    else ServedOnly(input.served, Judged(input, names))
  }

  function ServedOnly(served: bool, decision: Probe.Decision): Probe.Decision {
    if !served && decision.status == Probe.True then Failed("invalid-response") else decision
  }

  ghost function Verdict(input: Input, memory: Memory): Probe.Decision {
    Overridden(Changed(input, memory) || Weakened(input, memory), input.InTime(), Judgement(input, memory.checkedNames))
  }

  /** A changed or weakened policy overrides lateness, which overrides what was found. */
  function Overridden(policy: bool, inTime: bool, decision: Probe.Decision): Probe.Decision {
    if policy then POLICY_CHANGED else if !inTime then Failed("timeout") else decision
  }

  const POLICY_CHANGED := Probe.Decision(Probe.Unknown, "PolicyChanged", "", [], None)

  /** The expiries after the probes of an evaluation. */
  ghost function Probed(input: Input, memory: Memory): map<Cache, Time> {
    if Probes(input) then Sighted(input, memory.checkedNames, memory.positive) else memory.positive
  }

  ghost function AfterProbes(input: Input, memory: Memory): Memory {
    memory.(positive := Probed(input, memory))
  }

  /** The floor and the policy that an evaluation leaves. */
  ghost function Noted(input: Input, weakened: bool, memory: Memory): Memory {
    var floor := ValidClaim(input) && !weakened && ValidServers(input.Views(), input.endpoint);
    memory.(views := if floor then input.Required() else memory.views,
            soaMinimum := if floor then Max(memory.soaMinimum, input.soaMinimum) else memory.soaMinimum,
            policy := Some(input.Print()))
  }

  /** A window found open is dropped: the policy changed or weakened, or a probe came too late. */
  predicate Breaks(input: Input, memory: Memory) {
    Changed(input, memory) || Weakened(input, memory) || Gap(memory, input.Start()) || Gap(memory, input.End())
  }

  /** The memory once the outcome is known and before it is counted. */
  ghost function Settled(input: Input, memory: Memory): Memory {
    Noted(input, Weakened(input, memory), ClearedIf(Breaks(input, memory), AfterProbes(input, memory)))
  }

  ghost predicate Counted(settled: Memory, verdict: Probe.Decision, minimum: nat, now: Time, counted: Memory,
                          decision: Probe.Decision) {
    if verdict.status == Probe.True then
      Windowed(settled, minimum, now, counted) && decision == WindowDecision(counted.verifiedAt)
    else
      counted == Invalidated(settled) && decision == verdict
  }

  /** Count the verdict and schedule the next probe. */
  ghost predicate Finished(settled: Memory, verdict: Probe.Decision, minimum: nat, now: Time, changed: bool,
                           after: Memory, decision: Probe.Decision) {
    exists counted ::
      && Counted(settled, verdict, minimum, now, counted, decision)
      && after == Scheduled(counted, decision.status, changed, now)
  }

  ghost predicate Evaluated(input: Input, previous: Option<Memory>, after: Memory, decision: Probe.Decision) {
    var memory := Initial(input, previous);
    Finished(Settled(input, memory), Verdict(input, memory), input.soaMinimum, input.End(), Changed(input, memory),
             after, decision)
  }

  /** What the end of an evaluation adds to the settled memory. */
  lemma FinishedFacts(settled: Memory, verdict: Probe.Decision, minimum: nat, now: Time, changed: bool, after: Memory,
                      decision: Probe.Decision)
    requires Finished(settled, verdict, minimum, now, changed, after, decision)
    ensures SameBesidesWindow(settled, after)
    ensures after.lastProbe == now && now + 30 * SECOND <= after.nextProbe <= now + 300 * SECOND
    ensures decision.status != Probe.Unknown ==> after.nextProbe == now + 30 * SECOND
    ensures after.absentSince.Some? <==> verdict.status == Probe.True
    ensures verdict.status == Probe.True ==>
      WindowKept(settled, minimum, now, after) && decision.status != Probe.Unknown
    ensures decision.status == Probe.True ==> verdict.status == Probe.True && Conclusive(settled, now, after)
  {
    var counted :| Counted(settled, verdict, minimum, now, counted, decision)
                   && after == Scheduled(counted, decision.status, changed, now);
    if verdict.status == Probe.True {
      WindowFacts(settled, minimum, now, counted);
    }
  }

  lemma FinishedExactly(settled: Memory, verdict: Probe.Decision, minimum: nat, now: Time, changed: bool,
                        after: Memory, decision: Probe.Decision)
    requires Finished(settled, verdict, minimum, now, changed, after, decision)
    ensures decision.status == Probe.True <==>
      && verdict.status == Probe.True && Open(settled) && settled.lastProbe != 0 && settled.lastProbe < now
      && Due(settled, minimum, now)
    ensures after.positive == settled.positive
  {
    var counted :| Counted(settled, verdict, minimum, now, counted, decision)
                   && after == Scheduled(counted, decision.status, changed, now);
    if verdict.status == Probe.True {
      WindowConcludesExactly(settled, minimum, now, counted);
    }
  }

  /** Whether the claim is ready, and the waiver bound to the decision: neither feeds back into the evidence. */
  datatype Extras = Extras(ready: Probe.Status, waiver: Option<Waiver>)

  function ExtrasOf(input: Input, decision: Probe.Decision): Extras {
    Extras(if decision.status == Probe.True then Probe.True else Probe.False,
           if ValidClaim(input) && input.claim.waiver.Some? && input.claim.waiver.value.Complete()
           then input.claim.waiver else None)
  }

  method Evaluate(input: Input, previous: State?)
    returns (decision: Probe.Decision, required: seq<string>, state: State, extras: Extras)
    ensures fresh(state)
    ensures Evaluated(input, if previous == null then None else Some(previous.Value()), state.Value(), decision)
    ensures required == input.Required() && extras == ExtrasOf(input, decision)
  {
    state := InitialState(input, previous);
    required := input.Required();
    var changed, now;
    decision, changed, now := Observe(input, state);
    decision := Finish(state, decision, input.soaMinimum, now, changed);
    extras := BindWaiver(input, decision);
  }

  /** Everything up to the verdict. */
  method Observe(input: Input, state: State) returns (verdict: Probe.Decision, changed: bool, now: Time)
    modifies state
    ensures state.Value() == Settled(input, old(state.Value())) && verdict == Verdict(input, old(state.Value()))
    ensures changed == Changed(input, old(state.Value())) && now == input.End()
  {
    ghost var memory := state.Value();
    var weakened;
    changed, weakened := Prepare(input, state);
    StepsSettle(input, memory, state.Value());
    verdict := Judge(input, state);
    verdict, now := Elapse(input, verdict);
    Settle(input, state, weakened, now);
    if changed || weakened {
      verdict := POLICY_CHANGED;
    }
  }

  /** A probe that took too long voids its outcome and does not advance the time. */
  method Elapse(input: Input, judged: Probe.Decision) returns (verdict: Probe.Decision, now: Time)
    ensures verdict == Overridden(false, input.InTime(), judged) && now == input.End()
  {
    verdict, now := judged, input.Start();
    if input.InTime() {
      now := now + input.elapsed;
    } else {
      verdict := Failed("timeout");
    }
  }

  /** The last part of an evaluation before its verdict is counted. */
  ghost function SettledFrom(input: Input, weakened: bool, memory: Memory): Memory {
    Noted(input, weakened, ClearedIf(Gap(memory, input.End()), memory))
  }

  /** The steps of an evaluation together give the settled memory. */
  lemma StepsSettle(input: Input, memory: Memory, prepared: Memory)
    requires prepared
             == ClearedIf(Changed(input, memory) || Weakened(input, memory) || Gap(memory, input.Start()), memory)
    ensures SettledFrom(input, Weakened(input, memory), AfterProbes(input, prepared)) == Settled(input, memory)
    ensures prepared.checkedNames == memory.checkedNames
  {
  }

  method BindWaiver(input: Input, decision: Probe.Decision) returns (extras: Extras)
    ensures extras == ExtrasOf(input, decision)
  {
    extras := Extras(Probe.False, None);
    if decision.status == Probe.True {
      extras := extras.(ready := Probe.True);
    }
    if ValidClaim(input) && input.claim.waiver.Some? && input.claim.waiver.value.Complete() {
      extras := extras.(waiver := input.claim.waiver);
    }
  }

  method Finish(state: State, verdict: Probe.Decision, minimum: nat, now: Time, changed: bool)
    returns (decision: Probe.Decision)
    modifies state
    ensures Finished(old(state.Value()), verdict, minimum, now, changed, state.Value(), decision)
  {
    decision := verdict;
    if decision.status == Probe.True {
      decision := state.Window(minimum, now);
    } else {
      state.Invalidate();
    }
    ghost var counted := state.Value();
    state.Schedule(decision.status, changed, now);
    assert Counted(old(state.Value()), verdict, minimum, now, counted, decision);
  }

  /** The first gap check and the policy checks. */
  method Prepare(input: Input, state: State) returns (changed: bool, weakened: bool)
    modifies state
    ensures changed == Changed(input, old(state.Value())) && weakened == Weakened(input, old(state.Value()))
    ensures state.Value()
            == ClearedIf(changed || weakened || Gap(old(state.Value()), input.Start()), old(state.Value()))
  {
    changed := state.policy.Some? && state.policy.value != input.Print();
    weakened := CheckFloor(input, state);
    if Gap(state.Value(), input.Start()) {
      state.Invalidate();
    }
    if changed || weakened {
      state.Invalidate();
    }
  }

  /** The outcome of the probes, before lateness and policy are considered. */
  method Judge(input: Input, state: State) returns (decision: Probe.Decision)
    modifies state`positive
    ensures state.Value() == AfterProbes(input, old(state.Value()))
    ensures decision == Judgement(input, state.checkedNames)
  {
    var valid := ValidClaim(input);
    if !valid {
      return Failed("invalid-response");
    }
    var servers := CheckServers(input.Views(), input.endpoint);
    if !input.resolver || !servers {
      return Failed("resolver-config");
    }
    decision := ProbeNames(input, state);
    if !input.served && decision.status == Probe.True {
      decision := Failed("invalid-response");
    }
  }

  /** The second gap check, the floor and the policy of this evaluation. */
  method Settle(input: Input, state: State, weakened: bool, now: Time)
    requires now == input.End()
    modifies state
    ensures state.Value() == SettledFrom(input, weakened, old(state.Value()))
  {
    if Gap(state.Value(), now) {
      state.Invalidate();
    }
    var servers := CheckServers(input.Views(), input.endpoint);
    if ValidClaim(input) && !weakened && servers {
      state.views := input.Required();
      state.soaMinimum := Max(state.soaMinimum, input.soaMinimum);
    }
    state.policy := Some(input.Print());
  }

  // ---------- the waiver ----------

  lemma {:induction false} SameCombination(local: nat -> Probe.Decision, probed: nat -> Probe.Decision,
                                           local': nat -> Probe.Decision, probed': nat -> Probe.Decision, n: nat)
    requires forall i :: 0 <= i < n ==> local(i) == local'(i) && probed(i) == probed'(i)
    ensures CombineAll(local, probed, n) == CombineAll(local', probed', n)
  {
    if n > 0 {
      SameCombination(local, probed, local', probed', n - 1);
    }
  }

  lemma {:induction false} SameSights(step: (nat, map<Cache, Time>) -> map<Cache, Time>,
                                      step': (nat, map<Cache, Time>) -> map<Cache, Time>, n: nat,
                                      positive: map<Cache, Time>)
    requires forall i, known :: 0 <= i < n ==> step(i, known) == step'(i, known)
    ensures SightAll(step, n, positive) == SightAll(step', n, positive)
  {
    if n > 0 {
      SameSights(step, step', n - 1, positive);
    }
  }

  function WithWaiver(input: Input, waiver: Option<Waiver>): Input {
    input.(claim := input.claim.(waiver := waiver))
  }

  lemma SameName(input: Input, waiver: Option<Waiver>, name: Name, i: nat, known: map<Cache, Time>)
    requires input.claim.address.Parsed?
    ensures Excluded(WithWaiver(input, waiver), name) == Excluded(input, name)
    ensures ProbeVerdict(WithWaiver(input, waiver), name, i) == ProbeVerdict(input, name, i)
    ensures Sight(WithWaiver(input, waiver), name, i, known) == Sight(input, name, i, known)
  {
    assert WithWaiver(input, waiver).Request(name) == input.Request(name);
  }

  lemma WaiverFreeProbes(input: Input, waiver: Option<Waiver>, names: seq<Name>, positive: map<Cache, Time>)
    ensures input.claim.address.Parsed? ==>
      && Judged(WithWaiver(input, waiver), names) == Judged(input, names)
      && Sighted(WithWaiver(input, waiver), names, positive) == Sighted(input, names, positive)
  {
    if input.claim.address.Parsed? {
      var other := WithWaiver(input, waiver);
      forall i: nat, known | i < |names|
        ensures LocalPart(other, names)(i) == LocalPart(input, names)(i)
        ensures ProbedPart(other, names)(i) == ProbedPart(input, names)(i)
        ensures SightPart(other, names)(i, known) == SightPart(input, names)(i, known)
      {
        SameName(input, waiver, names[i], i, known);
      }
      SameCombination(LocalPart(other, names), ProbedPart(other, names), LocalPart(input, names),
                      ProbedPart(input, names), |names|);
      SameSights(SightPart(other, names), SightPart(input, names), |names|, positive);
    }
  }

  lemma WaiverFreeChecks(input: Input, waiver: Option<Waiver>, memory: Memory)
    ensures Changed(WithWaiver(input, waiver), memory) == Changed(input, memory)
    ensures Weakened(WithWaiver(input, waiver), memory) == Weakened(input, memory)
    ensures Breaks(WithWaiver(input, waiver), memory) == Breaks(input, memory)
  {
    assert WithWaiver(input, waiver).Required() == input.Required();
  }

  lemma WaiverFreeJudgement(input: Input, waiver: Option<Waiver>, memory: Memory)
    ensures Judgement(WithWaiver(input, waiver), memory.checkedNames) == Judgement(input, memory.checkedNames)
    ensures Probed(WithWaiver(input, waiver), memory) == Probed(input, memory)
  {
    WaiverFreeProbes(input, waiver, memory.checkedNames, memory.positive);
  }

  lemma WaiverFreeNotes(input: Input, waiver: Option<Waiver>, weakened: bool, memory: Memory)
    ensures Noted(WithWaiver(input, waiver), weakened, memory) == Noted(input, weakened, memory)
  {
    assert WithWaiver(input, waiver).Required() == input.Required();
  }

  lemma WaiverFreeVerdict(input: Input, waiver: Option<Waiver>, memory: Memory)
    ensures Verdict(WithWaiver(input, waiver), memory) == Verdict(input, memory)
    ensures Settled(WithWaiver(input, waiver), memory) == Settled(input, memory)
  {
    WaiverFreeChecks(input, waiver, memory);
    WaiverFreeJudgement(input, waiver, memory);
    WaiverFreeNotes(input, waiver, Weakened(input, memory),
                    ClearedIf(Breaks(input, memory), AfterProbes(input, memory)));
  }

  /**
   A waiver changes neither the verdict nor what is remembered: it can stand beside a decision, not bring it about.
   */
  lemma WaiverIsBeside(input: Input, waiver: Option<Waiver>, previous: Option<Memory>, after: Memory,
                       decision: Probe.Decision)
    requires Evaluated(input, previous, after, decision)
    ensures Evaluated(WithWaiver(input, waiver), previous, after, decision)
  {
    WaiverFreeStart(input, waiver, previous);
    SameEnd(input, WithWaiver(input, waiver), Initial(input, previous), after, decision, waiver);
  }

  lemma WaiverFreeStart(input: Input, waiver: Option<Waiver>, previous: Option<Memory>)
    ensures Initial(WithWaiver(input, waiver), previous) == Initial(input, previous)
  {
  }

  lemma SameEnd(input: Input, other: Input, memory: Memory, after: Memory, decision: Probe.Decision,
                waiver: Option<Waiver>)
    requires other == WithWaiver(input, waiver)
    requires Finished(Settled(input, memory), Verdict(input, memory), input.soaMinimum, input.End(),
                      Changed(input, memory), after, decision)
    ensures Finished(Settled(other, memory), Verdict(other, memory), other.soaMinimum, other.End(),
                     Changed(other, memory), after, decision)
  {
    WaiverFreeVerdict(input, waiver, memory);
    WaiverFreeChecks(input, waiver, memory);
  }
}
