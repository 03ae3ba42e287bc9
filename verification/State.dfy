/**
 The evidence a withdrawal claim keeps between evaluations (withdrawal/state.go).

 `State` is the object that an evaluation updates in place. `Memory` is its value; each method is
 proved against a function from memories to memories.
 */
module States {
  import opened Names
  import Probe

  /** Nanoseconds since the zero time; 0 is the zero time itself. */
  type Time = nat

  const SECOND: nat := 1_000_000_000

  datatype Reference = Reference(namespace: string, name: string, uid: string)

  /** Whose evidence this is; `Anonymous` marks a publication seed. The hash of these parts is injective. */
  datatype Identity = Anonymous | Bound(zone: Name, claim: Reference, generation: int, name: Name, address: AddressText)

  /** What the policy fingerprint covers. */
  datatype Fingerprint = Fingerprint(policy: Probe.Policy, soaMinimum: nat, digest: string)

  /** A cache that may still hold the address: one view and type of a checked name, or a publication seed. */
  datatype Cache = Seed(text: string) | Copy(name: Name, view: string, qtype: string)

  datatype Memory = Memory(
    identity: Identity,
    policy: Option<Fingerprint>,
    views: seq<string>,
    soaMinimum: nat,
    checkedNames: seq<Name>,
    positive: map<Cache, Time>,
    negative: Option<nat>,
    windowStart: Time,
    absentSince: Option<Time>,
    notBefore: Option<Time>,
    verifiedAt: Option<Time>,
    lastProbe: Time,
    nextProbe: Time,
    failures: nat,
    missingHistory: bool)

  // ---------- what each update does ----------

  function Invalidated(memory: Memory): Memory {
    memory.(absentSince := None, notBefore := None, verifiedAt := None, windowStart := 0, negative := None)
  }

  function Expiry(positive: map<Cache, Time>, cache: Cache): Time {
    if cache in positive then positive[cache] else 0
  }

  function Retain(positive: map<Cache, Time>, name: Name, item: Probe.CacheEvidence, now: Time): map<Cache, Time> {
    var cache := Copy(name, item.view, item.qtype);
    if item.positiveTTL.Some? && now + item.positiveTTL.value * SECOND > Expiry(positive, cache)
    then positive[cache := now + item.positiveTTL.value * SECOND]
    else positive
  }

  function RetainAll(positive: map<Cache, Time>, name: Name, evidence: seq<Probe.CacheEvidence>,
                     now: Time): map<Cache, Time> {
    if evidence == [] then positive
    else Retain(RetainAll(positive, name, evidence[..|evidence| - 1], now), name, evidence[|evidence| - 1], now)
  }

  /** The least bound above `base` and every expiry. */
  ghost predicate IsHorizon(bound: Time, base: Time, positive: map<Cache, Time>) {
    && base <= bound
    && (forall c :: c in positive ==> positive[c] <= bound)
    && (bound == base || exists c :: c in positive && positive[c] == bound)
  }

  function RoundUp(time: Time): (whole: Time)
    ensures whole % SECOND == 0 && time <= whole < time + SECOND
  {
    if time % SECOND == 0 then time else (time / SECOND + 1) * SECOND
  }

  function Or(value: Option<nat>, default: nat): nat {
    if value.Some? then value.value else default
  }

  /** Drop a window whose precise start was lost. */
  function Repaired(memory: Memory): Memory {
    if memory.absentSince.Some? && memory.windowStart == 0 then Invalidated(memory) else memory
  }

  predicate Confirming(memory: Memory, now: Time) {
    memory.absentSince.Some? && memory.lastProbe != 0 && memory.lastProbe < now
  }

  function Started(memory: Memory, minimum: nat, now: Time): Memory {
    var open := if memory.absentSince.None? then memory.(absentSince := Some(now), windowStart := now) else memory;
    open.(negative := Some(Max(Or(open.negative, 0), minimum)))
  }

  /** The time before which a started window may not conclude, leaving aside the cached copies. */
  function Base(memory: Memory): Time {
    var base := memory.windowStart + Or(memory.negative, 0) * SECOND;
    if memory.notBefore.Some? && memory.notBefore.value > base then memory.notBefore.value else base
  }

  /** `after` is the memory of `before` once an absent observation that ended at `now` is counted. */
  ghost predicate Windowed(before: Memory, minimum: nat, now: Time, after: Memory) {
    var repaired := Repaired(before);
    var started := Started(repaired, minimum, now);
    exists horizon ::
      && IsHorizon(horizon, Base(started), before.positive)
      && after == started.(
           notBefore := Some(RoundUp(horizon)),
           verifiedAt := if Confirming(repaired, now) && RoundUp(horizon) <= now then Some(now) else None)
  }

  const STEPS: seq<nat> := [30, 60, 120, 300]

  function Scheduled(memory: Memory, status: Probe.Status, changed: bool, now: Time): Memory {
    var failures := if changed || status != Probe.Unknown then 0 else memory.failures;
    if status == Probe.Unknown then
      var counted := if failures + 1 < 4 then failures + 1 else 4;
      memory.(failures := counted, lastProbe := now, nextProbe := now + STEPS[counted - 1] * SECOND)
    else memory.(failures := failures, lastProbe := now, nextProbe := now + 30 * SECOND)
  }

  // ---------- the object ----------

  class State {
    var identity: Identity
    var policy: Option<Fingerprint>
    var views: seq<string>
    var soaMinimum: nat
    var checkedNames: seq<Name>
    var positive: map<Cache, Time>
    var negative: Option<nat>
    var windowStart: Time
    var absentSince: Option<Time>
    var notBefore: Option<Time>
    var verifiedAt: Option<Time>
    var lastProbe: Time
    var nextProbe: Time
    var failures: nat
    var missingHistory: bool

    function Value(): Memory
      reads this
    {
      Memory(identity, policy, views, soaMinimum, checkedNames, positive, negative, windowStart, absentSince, notBefore,
             verifiedAt, lastProbe, nextProbe, failures, missingHistory)
    }

    /** A state without history. */
    constructor (identity: Identity, checkedName: Name)
      ensures Value() == Unseen(identity, checkedName)
    {
      this.identity, policy, views, soaMinimum, checkedNames := identity, None, [], 0, [checkedName];
      positive, negative, windowStart := map[], None, 0;
      absentSince, notBefore, verifiedAt := None, None, None;
      lastProbe, nextProbe, failures, missingHistory := 0, 0, 0, false;
    }

    /** A copy that shares nothing with the original. */
    constructor Clone(previous: State)
      ensures Value() == previous.Value()
    {
      identity, policy, views, soaMinimum := previous.identity, previous.policy, previous.views, previous.soaMinimum;
      checkedNames, positive, negative := previous.checkedNames, previous.positive, previous.negative;
      windowStart, absentSince, notBefore := previous.windowStart, previous.absentSince, previous.notBefore;
      verifiedAt, lastProbe, nextProbe := previous.verifiedAt, previous.lastProbe, previous.nextProbe;
      failures, missingHistory := previous.failures, previous.missingHistory;
    }

    method Invalidate()
      modifies this
      ensures Value() == Invalidated(old(Value()))
    {
      absentSince, notBefore, verifiedAt := None, None, None;
      windowStart := 0;
      negative := None;
    }

    method RetainPositive(name: Name, evidence: seq<Probe.CacheEvidence>, now: Time)
      modifies this`positive
      ensures positive == RetainAll(old(positive), name, evidence, now)
    {
      var i := 0;
      while i < |evidence|
        invariant 0 <= i <= |evidence|
        invariant positive == RetainAll(old(positive), name, evidence[..i], now)
      {
        assert evidence[..i + 1][..i] == evidence[..i];
        var item := evidence[i];
        if item.positiveTTL.Some? {
          var cache := Copy(name, item.view, item.qtype);
          var expires := now + item.positiveTTL.value * SECOND;
          if expires > Expiry(positive, cache) {
            positive := positive[cache := expires];
          }
        }
        i := i + 1;
      }
      assert evidence[..i] == evidence;
    }

    method Window(minimum: nat, now: Time) returns (decision: Probe.Decision)
      modifies this
      ensures Windowed(old(Value()), minimum, now, Value())
      ensures decision == WindowDecision(verifiedAt)
    {
      var confirming := OpenWindow(minimum, now);
      ghost var started := Value();
      var bound := windowStart + negative.value * SECOND;
      if notBefore.Some? && notBefore.value > bound {
        bound := notBefore.value;
      }
      assert bound == Base(started);
      bound := Latest(bound, positive);
      ghost var horizon := bound;
      if bound % SECOND != 0 {
        bound := (bound / SECOND + 1) * SECOND;
      }
      assert bound == RoundUp(horizon);
      decision := Conclude(confirming, bound, now);
      assert IsHorizon(horizon, Base(started), old(positive));
    }

    method OpenWindow(minimum: nat, now: Time) returns (confirming: bool)
      modifies this
      ensures Value() == Started(Repaired(old(Value())), minimum, now)
      ensures confirming == Confirming(Repaired(old(Value())), now)
    {
      if absentSince.Some? && windowStart == 0 {
        Invalidate();
      }
      confirming := absentSince.Some? && lastProbe != 0 && now > lastProbe;
      if absentSince.None? {
        absentSince := Some(now);
        windowStart := now;
      }
      if negative.None? {
        negative := Some(0);
      }
      negative := Some(Max(negative.value, minimum));
    }

    method Conclude(confirming: bool, bound: Time, now: Time) returns (decision: Probe.Decision)
      modifies this
      ensures Value() == old(Value()).(
        notBefore := Some(bound), verifiedAt := if confirming && bound <= now then Some(now) else None)
      ensures decision == WindowDecision(verifiedAt)
    {
      notBefore := Some(bound);
      if !confirming || now < bound {
        verifiedAt := None;
        decision := PENDING;
      } else {
        verifiedAt := Some(now);
        decision := Probe.VERIFIED;
      }
    }

    method Schedule(status: Probe.Status, changed: bool, now: Time)
      modifies this
      ensures Value() == Scheduled(old(Value()), status, changed, now)
    {
      var interval := 30;
      if changed || status != Probe.Unknown {
        failures := 0;
      }
      if status == Probe.Unknown {
        failures := if failures + 1 < |STEPS| then failures + 1 else |STEPS|;
        interval := STEPS[failures - 1];
      }
      lastProbe, nextProbe := now, now + interval * SECOND;
    }
  }

  const PENDING := Probe.Decision(Probe.False, "NegativeTTLNotElapsed", "", [], None)

  function WindowDecision(verifiedAt: Option<Time>): Probe.Decision {
    if verifiedAt.Some? then Probe.VERIFIED else PENDING
  }

  function Unseen(identity: Identity, checkedName: Name): Memory {
    Memory(identity, None, [], 0, [checkedName], map[], None, 0, None, None, None, 0, 0, 0, false)
  }

  /** The pass over the map of expiries. */
  method Latest(base: Time, positive: map<Cache, Time>) returns (bound: Time)
    ensures IsHorizon(bound, base, positive)
  {
    bound := base;
    var todo := positive.Keys;
    while todo != {}
      invariant todo <= positive.Keys
      invariant base <= bound
      invariant forall c :: c in positive && c !in todo ==> positive[c] <= bound
      invariant bound == base || exists c :: c in positive && positive[c] == bound
      decreases todo
    {
      var cache :| cache in todo;
      if positive[cache] > bound {
        bound := positive[cache];
      }
      todo := todo - {cache};
    }
  }

  // ---------- facts ----------

  /** A horizon is unique, so the order in which the expiries are visited cannot matter. */
  lemma WindowIsDeterminate(before: Memory, minimum: nat, now: Time, left: Memory, right: Memory)
    requires Windowed(before, minimum, now, left) && Windowed(before, minimum, now, right)
    ensures left == right
  {
  }

  /** The window was open, with a start that is known. */
  predicate Open(memory: Memory) {
    memory.absentSince.Some? && memory.windowStart != 0
  }

  /** Every expiry has passed. */
  ghost predicate Expired(positive: map<Cache, Time>, now: Time) {
    forall c :: Expiry(positive, c) <= now
  }

  /** An open window keeps its start and its largest minimum; otherwise a new one starts now. */
  ghost predicate WindowKept(before: Memory, minimum: nat, now: Time, after: Memory) {
    && after.absentSince.Some?
    && (if Open(before) then
          after.windowStart == before.windowStart && after.negative == Some(Max(Or(before.negative, 0), minimum))
        else
          && after.windowStart == now
          && after.negative == Some(Max(if before.absentSince.None? then Or(before.negative, 0) else 0, minimum)))
  }

  /** What is known when a window concludes. */
  ghost predicate Conclusive(before: Memory, now: Time, after: Memory) {
    && Open(before) && before.lastProbe < now
    && before.windowStart + Or(after.negative, 0) * SECOND <= now
    && Expired(before.positive, now)
  }

  predicate SameBesidesWindow(before: Memory, after: Memory) {
    && after.identity == before.identity && after.policy == before.policy && after.views == before.views
    && after.soaMinimum == before.soaMinimum && after.checkedNames == before.checkedNames
    && after.positive == before.positive
    && after.missingHistory == before.missingHistory
  }

  lemma WindowFacts(before: Memory, minimum: nat, now: Time, after: Memory)
    requires Windowed(before, minimum, now, after)
    ensures WindowKept(before, minimum, now, after)
    ensures after.verifiedAt.Some? ==> Conclusive(before, now, after)
    ensures SameBesidesWindow(before, after) && after.failures == before.failures
  {
  }

  /** Every bound of an open window has passed, each counted to the whole second. */
  ghost predicate Due(memory: Memory, minimum: nat, now: Time) {
    && RoundUp(memory.windowStart + Max(Or(memory.negative, 0), minimum) * SECOND) <= now
    && (memory.notBefore.Some? ==> RoundUp(memory.notBefore.value) <= now)
    && forall c :: c in memory.positive ==> RoundUp(memory.positive[c]) <= now
  }

  /** A horizon has passed exactly when everything it bounds has, each counted to the whole second. */
  lemma HorizonPassed(horizon: Time, start: Time, notBefore: Option<Time>, positive: map<Cache, Time>, now: Time)
    requires IsHorizon(horizon, if notBefore.Some? && notBefore.value > start then notBefore.value else start, positive)
    ensures RoundUp(horizon) <= now <==>
      && RoundUp(start) <= now && (notBefore.Some? ==> RoundUp(notBefore.value) <= now)
      && forall c :: c in positive ==> RoundUp(positive[c]) <= now
  {
    RoundUpMonotone(start, horizon);
    if notBefore.Some? {
      RoundUpMonotone(notBefore.value, horizon);
    }
    forall c | c in positive
      ensures RoundUp(positive[c]) <= RoundUp(horizon)
    {
      RoundUpMonotone(positive[c], horizon);
    }
  }

  /** A window concludes exactly when it was open, the probe is later than the last one, and every bound has passed. */
  lemma WindowConcludesExactly(before: Memory, minimum: nat, now: Time, after: Memory)
    requires Windowed(before, minimum, now, after)
    ensures after.verifiedAt.Some? <==>
      Open(before) && before.lastProbe != 0 && before.lastProbe < now && Due(before, minimum, now)
  {
    var horizon := Concluded(before, minimum, now, after);
    if Open(before) {
      DueExactly(before, minimum, now, horizon);
    }
  }

  lemma DueExactly(before: Memory, minimum: nat, now: Time, horizon: Time)
    requires Open(before) && IsHorizon(horizon, Base(Started(Repaired(before), minimum, now)), before.positive)
    ensures RoundUp(horizon) <= now <==> Due(before, minimum, now)
  {
    OpenBase(before, minimum, now);
    HorizonPassed(horizon, before.windowStart + Max(Or(before.negative, 0), minimum) * SECOND, before.notBefore,
                  before.positive, now);
  }

  lemma Concluded(before: Memory, minimum: nat, now: Time, after: Memory) returns (horizon: Time)
    requires Windowed(before, minimum, now, after)
    ensures IsHorizon(horizon, Base(Started(Repaired(before), minimum, now)), before.positive)
    ensures after.verifiedAt.Some? <==>
      Open(before) && before.lastProbe != 0 && before.lastProbe < now && RoundUp(horizon) <= now
  {
    var started := Started(Repaired(before), minimum, now);
    horizon :| IsHorizon(horizon, Base(started), before.positive)
               && after == started.(
                    notBefore := Some(RoundUp(horizon)),
                    verifiedAt := if Confirming(Repaired(before), now) && RoundUp(horizon) <= now
                                  then Some(now) else None);
  }

  lemma OpenBase(before: Memory, minimum: nat, now: Time)
    requires Open(before)
    ensures var start := before.windowStart + Max(Or(before.negative, 0), minimum) * SECOND;
            Base(Started(Repaired(before), minimum, now))
            == if before.notBefore.Some? && before.notBefore.value > start then before.notBefore.value else start
  {
  }

  lemma RoundUpMonotone(small: Time, large: Time)
    ensures small <= large ==> RoundUp(small) <= RoundUp(large)
  {
  }

  /** No expiry is lowered or dropped, and nothing appears but copies of the named cache entries. */
  lemma {:induction false} RetainGrows(positive: map<Cache, Time>, name: Name, evidence: seq<Probe.CacheEvidence>,
                                       now: Time)
    ensures forall c :: c in positive ==> c in RetainAll(positive, name, evidence, now)
    ensures forall c :: Expiry(positive, c) <= Expiry(RetainAll(positive, name, evidence, now), c)
    ensures forall item :: item in evidence && item.positiveTTL.Some? ==>
      now + item.positiveTTL.value * SECOND <= Expiry(RetainAll(positive, name, evidence, now),
                                                      Copy(name, item.view, item.qtype))
  {
    if evidence != [] {
      var rest, last := evidence[..|evidence| - 1], evidence[|evidence| - 1];
      RetainGrows(positive, name, rest, now);
      assert evidence == rest + [last];
    }
  }

  /** The delay until the next probe after `n` consecutive unknown outcomes, n counted from 1. */
  function Backoff(n: nat): nat
    requires n > 0
  {
    STEPS[if n < 4 then n - 1 else 3]
  }

  /** Repeating an unknown outcome without a policy change. */
  function Repeated(memory: Memory, times: seq<Time>): Memory {
    if times == [] then memory
    else Scheduled(Repeated(memory, times[..|times| - 1]), Probe.Unknown, false, times[|times| - 1])
  }

  /** From a success, n failures in a row wait 30, 60, 120 and then always 300 seconds. */
  lemma {:induction false} BackoffGrows(memory: Memory, times: seq<Time>)
    requires memory.failures == 0 && times != []
    ensures var after := Repeated(memory, times);
      && after.failures == (if |times| < 4 then |times| else 4)
      && after.lastProbe == times[|times| - 1]
      && after.nextProbe == after.lastProbe + Backoff(|times|) * SECOND
  {
    if |times| > 1 {
      BackoffGrows(memory, times[..|times| - 1]);
    } else {
      assert times[..0] == [];
    }
  }
}
