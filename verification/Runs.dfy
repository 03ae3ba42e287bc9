/**
 Whole runs of evaluations for one claim identity.

 Each round evaluates the memory the round before left, after the controller may have rescheduled
 the next probe, dropped the window, or stored the memory, which truncates its public times to
 whole seconds (controllers/zoneunit/withdrawal.go).
 */
module Runs {
  import opened Names
  import opened States
  import opened Evaluator
  import Probe

  datatype Round = Round(input: Input, before: Option<Memory>, after: Memory, decision: Probe.Decision)

  function WholeSeconds(time: Option<Time>): Option<Time> {
    if time.Some? then Some(time.value / SECOND * SECOND) else None
  }

  ghost predicate StoredTime(left: Option<Time>, loaded: Option<Time>) {
    loaded == left || loaded == WholeSeconds(left)
  }

  /** What may happen to a memory between two evaluations. */
  ghost predicate Carried(left: Memory, loaded: Memory) {
    && loaded.identity == left.identity && loaded.policy == left.policy && loaded.views == left.views
    && loaded.soaMinimum == left.soaMinimum && loaded.checkedNames == left.checkedNames
    && loaded.positive == left.positive
    && loaded.lastProbe == left.lastProbe && loaded.failures == left.failures
    && loaded.missingHistory == left.missingHistory
    && ((loaded.absentSince.None? && loaded.notBefore.None? && loaded.verifiedAt.None? && loaded.windowStart == 0
         && loaded.negative.None?)
        || (&& StoredTime(left.absentSince, loaded.absentSince) && StoredTime(left.notBefore, loaded.notBefore)
            && StoredTime(left.verifiedAt, loaded.verifiedAt)
            && loaded.windowStart == left.windowStart && loaded.negative == left.negative))
  }

  /**
   What the controller does to a memory it holds: move the next probe, drop the window, or write it and load it again.
   */
  datatype Treatment = Reschedule(next: Time) | Drop | Store

  function Treated(memory: Memory, treatments: seq<Treatment>): Memory {
    if treatments == [] then memory
    else
      var before := Treated(memory, treatments[..|treatments| - 1]);
      match treatments[|treatments| - 1]
      case Reschedule(next) => before.(nextProbe := next)
      case Drop => Invalidated(before)
      case Store => before.(absentSince := WholeSeconds(before.absentSince),
                            notBefore := WholeSeconds(before.notBefore), verifiedAt := WholeSeconds(before.verifiedAt))
  }

  /** Whatever the controller does between two evaluations, and in whatever order, stays within `Carried`. */
  lemma {:induction false} TreatmentsCarry(memory: Memory, treatments: seq<Treatment>)
    ensures Carried(memory, Treated(memory, treatments))
  {
    if treatments != [] {
      TreatmentsCarry(memory, treatments[..|treatments| - 1]);
    }
  }

  ghost predicate Follows(previous: Round, next: Round) {
    next.before.Some? && Carried(previous.after, next.before.value)
  }

  ghost predicate Proper(round: Round) {
    Evaluated(round.input, round.before, round.after, round.decision)
  }

  /** A run starts without history of its own and threads it from round to round. */
  ghost predicate Run(rounds: seq<Round>, identity: Identity) {
    forall k :: 0 <= k < |rounds| ==> Threaded(rounds, identity, k)
  }

  ghost predicate Threaded(rounds: seq<Round>, identity: Identity, k: nat)
    requires k < |rounds|
  {
    && Proper(rounds[k]) && IdentityOf(rounds[k].input) == identity
    && if k > 0 then Follows(rounds[k - 1], rounds[k])
       else rounds[0].before.Some? ==> rounds[0].before.value.identity != identity
  }

  // ---------- what one round does ----------

  /** The memory a round starts from. */
  function Opening(round: Round): Memory {
    Initial(round.input, round.before)
  }

  function Address(round: Round): AddressText {
    round.input.claim.address
  }

  /** The probe of a name found the address in no view, and every required view is among those probed. */
  ghost predicate ViewsExclude(input: Input, i: nat, address: Addr) {
    && input.observe(i).error.None?
    && (forall v :: v in input.observe(i).views ==> Probe.AbsentFrom(address, v))
    && forall id :: id in input.Required() ==> Probe.HasView(input.observe(i).views, id)
  }

  /** The snapshot of a round excludes the address at a name, and so does every view. */
  ghost predicate NameExcludes(round: Round, name: Name, i: nat)
    requires Address(round).Parsed?
  {
    && Excluded(round.input, name).decision.status == Probe.True
    && ViewsExclude(round.input, i, Address(round).addr)
    && Probe.Certified(round.input.Request(name), round.input.observe(i).views)
  }

  /** A round that found the address absent everywhere, in time, from a served snapshot. */
  ghost predicate Absent(round: Round) {
    && ValidClaim(round.input) && round.input.served && round.input.InTime()
    && !Changed(round.input, Opening(round)) && !Weakened(round.input, Opening(round))
    && forall i :: 0 <= i < |Opening(round).checkedNames| ==> NameExcludes(round, Opening(round).checkedNames[i], i)
  }

  /** Combining ends True only when every part was True. */
  lemma {:induction false} CombinedTrue(local: nat -> Probe.Decision, probed: nat -> Probe.Decision, n: nat)
    requires CombineAll(local, probed, n).status == Probe.True
    ensures forall i :: 0 <= i < n ==> local(i).status == Probe.True && probed(i).status == Probe.True
  {
    if n > 0 {
      CombinedTrue(local, probed, n - 1);
    }
  }

  lemma {:induction false} AllTrueCombines(local: nat -> Probe.Decision, probed: nat -> Probe.Decision, n: nat)
    requires forall i :: 0 <= i < n ==> local(i).status == Probe.True && probed(i).status == Probe.True
    ensures CombineAll(local, probed, n).status == Probe.True
  {
    if n > 0 {
      AllTrueCombines(local, probed, n - 1);
    }
  }

  /** Everything that makes an evaluation find absence. */
  ghost predicate Favourable(round: Round) {
    && !Changed(round.input, Opening(round)) && !Weakened(round.input, Opening(round)) && round.input.InTime()
    && Probes(round.input) && round.input.served
    && forall i :: 0 <= i < |Opening(round).checkedNames| ==> BothTrue(round, i)
  }

  ghost predicate BothTrue(round: Round, i: nat)
    requires Address(round).Parsed? && i < |Opening(round).checkedNames|
  {
    var name := Opening(round).checkedNames[i];
    Excluded(round.input, name).decision.status == Probe.True && ProbeVerdict(round.input, name, i).status == Probe.True
  }

  /**
   The verdict is True exactly when nothing stands against it and each name is excluded by the snapshot and by its
   probe.
   */
  lemma VerdictExactly(round: Round)
    ensures Verdict(round.input, Opening(round)).status == Probe.True <==> Favourable(round)
  {
    var input, names := round.input, Opening(round).checkedNames;
    if Probes(input) {
      var local, probed := LocalPart(input, names), ProbedPart(input, names);
      if Judged(input, names).status == Probe.True {
        CombinedTrue(local, probed, |names|);
        forall i | 0 <= i < |names|
          ensures BothTrue(round, i)
        {
          assert local(i).status == Probe.True && probed(i).status == Probe.True;
        }
      } else if forall i :: 0 <= i < |names| ==> BothTrue(round, i) {
        forall i | 0 <= i < |names|
          ensures local(i).status == Probe.True && probed(i).status == Probe.True
        {
          assert BothTrue(round, i);
        }
        AllTrueCombines(local, probed, |names|);
      }
    }
  }

  lemma ProbeTrue(input: Input, name: Name, i: nat)
    requires ValidClaim(input) && ProbeVerdict(input, name, i).status == Probe.True
    ensures ViewsExclude(input, i, input.claim.address.addr)
    ensures Probe.Certified(input.Request(name), input.observe(i).views)
  {
    ObservedTrue(input.Request(name), input.observe(i).views);
    forall id | id in input.Required()
      ensures Probe.HasView(input.observe(i).views, id)
    {
      var j :| 0 <= j < |input.Required()| && input.Required()[j] == id;
      assert input.Views()[j] in input.ProbePolicy().servers;
    }
  }

  lemma ObservedTrue(request: Probe.Request, views: seq<Probe.View>)
    requires Probe.EvaluateSpec(request, views).decision.status == Probe.True
    ensures request.withdrawalAddress.Parsed? && Probe.Certified(request, views)
    ensures forall v :: v in views ==> Probe.AbsentFrom(request.withdrawalAddress.addr.Unmap(), v)
    ensures forall s :: s in request.policy.servers ==> Probe.HasView(views, Probe.RecursiveID(s))
  {
    Probe.TrueMeansAbsent(request, views);
    forall v | v in views
      ensures Probe.AbsentFrom(request.withdrawalAddress.addr.Unmap(), v)
    {
      var j :| 0 <= j < |views| && views[j] == v;
    }
  }

  /** A verdict of True means an absent round. */
  lemma VerdictTrue(round: Round)
    requires Verdict(round.input, Opening(round)).status == Probe.True
    ensures Absent(round)
  {
    var names := Opening(round).checkedNames;
    var local, probed := LocalPart(round.input, names), ProbedPart(round.input, names);
    CombinedTrue(local, probed, |names|);
    forall i | 0 <= i < |names|
      ensures NameExcludes(round, names[i], i)
    {
      assert local(i).status == Probe.True && probed(i).status == Probe.True;
      ProbeTrue(round.input, names[i], i);
    }
  }

  /** The round drops a window found open. */
  predicate Broken(round: Round) {
    Breaks(round.input, Opening(round))
  }

  // ---------- the trace of a round ----------

  /** What later rounds depend on: the memory found and left, and whether its window continues. */
  datatype Trace = Trace(absent: bool, continues: bool, policy: Fingerprint, end: Time, minimum: nat,
                         found: Memory, left: Memory, status: Probe.Status)

  ghost function TraceOf(round: Round): Trace {
    Trace(Absent(round), Open(Opening(round)) && !Broken(round), round.input.Print(), round.input.End(),
          round.input.soaMinimum,
          Opening(round), round.after, round.decision.status)
  }

  /** An open window was continued or started by an absent round. */
  predicate LeavesWindow(trace: Trace) {
    trace.left.absentSince.Some? ==>
      && trace.absent && trace.status != Probe.Unknown
      && Or(trace.left.negative, 0) >= trace.minimum
      && trace.left.windowStart == if trace.continues then trace.found.windowStart else trace.end
  }

  predicate LeavesSchedule(trace: Trace) {
    && trace.left.policy == Some(trace.policy)
    && trace.left.lastProbe == trace.end
    && trace.end + 30 * SECOND <= trace.left.nextProbe <= trace.end + 300 * SECOND
    && (trace.status != Probe.Unknown ==> trace.left.nextProbe == trace.end + 30 * SECOND)
  }

  /** What a decision of True says about the round itself. */
  ghost predicate Concludes(trace: Trace) {
    && trace.left.absentSince.Some? && trace.continues
    && trace.found.lastProbe < trace.end
    && trace.left.windowStart + trace.minimum * SECOND <= trace.end
    && Expired(trace.left.positive, trace.end)
  }

  /** A window goes on only under the same policy and without a gap. */
  predicate Continues(trace: Trace) {
    trace.continues ==>
      && Open(trace.found) && !Gap(trace.found, trace.end)
      && (trace.found.policy.Some? ==> trace.found.policy == Some(trace.policy))
  }

  ghost predicate Leaves(trace: Trace) {
    && LeavesWindow(trace) && LeavesSchedule(trace) && Continues(trace)
    && (trace.status == Probe.True ==> Concludes(trace))
  }

  lemma FinishedLeaves(settled: Memory, verdict: Probe.Decision, changed: bool, decision: Probe.Decision, trace: Trace)
    requires Finished(settled, verdict, trace.minimum, trace.end, changed, trace.left, decision)
    requires trace.status == decision.status
    requires verdict.status == Probe.True ==> trace.absent
    requires Continues(trace)
    requires settled.lastProbe == trace.found.lastProbe && settled.policy == Some(trace.policy)
    requires if trace.continues then Open(settled) && settled.windowStart == trace.found.windowStart else !Open(settled)
    ensures Leaves(trace)
  {
    FinishedFacts(settled, verdict, trace.minimum, trace.end, changed, trace.left, decision);
  }

  lemma ProperLeaves(round: Round)
    requires Proper(round)
    ensures Leaves(TraceOf(round))
  {
    var settled := SettledFacts(round);
    if Verdict(round.input, Opening(round)).status == Probe.True {
      VerdictTrue(round);
    }
    FinishedLeaves(settled, Verdict(round.input, Opening(round)), Changed(round.input, Opening(round)),
                   round.decision, TraceOf(round));
  }

  /** The memory of a round just before its verdict is counted. */
  lemma SettledFacts(round: Round) returns (settled: Memory)
    requires Proper(round)
    ensures Finished(settled, Verdict(round.input, Opening(round)), round.input.soaMinimum, round.input.End(),
                     Changed(round.input, Opening(round)), round.after, round.decision)
    ensures settled.policy == Some(round.input.Print()) && settled.lastProbe == Opening(round).lastProbe
    ensures if Broken(round) then settled.absentSince.None?
            else settled.absentSince == Opening(round).absentSince && settled.windowStart == Opening(round).windowStart
                 && settled.notBefore == Opening(round).notBefore && settled.negative == Opening(round).negative
  {
    settled := Settled(round.input, Opening(round));
  }

  /**
   A decision is True exactly when the verdict is, the window found open is not broken, the round ends later than
   the last probe, and every bound of the window has passed, the cached copies seen in this very round included.
   */
  lemma TrueExactly(round: Round)
    requires Proper(round)
    ensures round.decision.status == Probe.True <==>
      && Favourable(round) && Open(Opening(round)) && !Broken(round)
      && Opening(round).lastProbe != 0 && Opening(round).lastProbe < round.input.End()
      && Due(Opening(round).(positive := round.after.positive), round.input.soaMinimum, round.input.End())
  {
    VerdictExactly(round);
    var settled := SettledFacts(round);
    FinishedFollows(settled, Verdict(round.input, Opening(round)), Changed(round.input, Opening(round)), round.after,
                    round.decision, round.input.soaMinimum, round.input.End(), Opening(round), Broken(round));
  }

  lemma FinishedFollows(settled: Memory, verdict: Probe.Decision, changed: bool, after: Memory,
                        decision: Probe.Decision, minimum: nat, now: Time, opening: Memory, broken: bool)
    requires Finished(settled, verdict, minimum, now, changed, after, decision)
    requires settled.lastProbe == opening.lastProbe
    requires if broken then settled.absentSince.None?
             else settled.absentSince == opening.absentSince && settled.windowStart == opening.windowStart
                  && settled.notBefore == opening.notBefore && settled.negative == opening.negative
    ensures decision.status == Probe.True <==>
      && verdict.status == Probe.True && Open(opening) && !broken
      && opening.lastProbe != 0 && opening.lastProbe < now
      && Due(opening.(positive := after.positive), minimum, now)
  {
    FinishedExactly(settled, verdict, minimum, now, changed, after, decision);
    if !broken {
      DueDependsOn(settled, opening.(positive := after.positive), minimum, now);
    }
  }

  lemma DueDependsOn(left: Memory, right: Memory, minimum: nat, now: Time)
    requires left.windowStart == right.windowStart && left.negative == right.negative
    requires left.notBefore == right.notBefore
    requires left.positive == right.positive
    ensures Due(left, minimum, now) == Due(right, minimum, now)
  {
  }

  // ---------- the absence window ----------

  /** How the memory a round finds depends on what the round before left. */
  predicate Linked(previous: Trace, trace: Trace) {
    && trace.found.policy == previous.left.policy
    && trace.found.lastProbe == previous.left.lastProbe
    && (Open(trace.found) ==> Open(previous.left) && trace.found.windowStart == previous.left.windowStart)
  }

  ghost predicate Chain(traces: seq<Trace>) {
    && (forall k :: 0 <= k < |traces| ==> Leaves(traces[k]))
    && (forall k :: 0 < k < |traces| ==> Linked(traces[k - 1], traces[k]))
    && (traces != [] ==> !Open(traces[0].found))
  }

  /** The later round ends no earlier, and at most 300 s after the time it was due. */
  predicate Adjoining(earlier: Trace, later: Trace) {
    earlier.end <= later.end <= later.found.nextProbe + 300 * SECOND
  }

  /** Rounds j to k all found absence, under one policy and without a gap. */
  ghost predicate Unbroken(traces: seq<Trace>, j: nat, k: nat) {
    && j <= k < |traces|
    && (forall i :: j <= i <= k ==>
          traces[i].absent && traces[i].status != Probe.Unknown && traces[i].policy == traces[k].policy)
    && forall i :: j < i <= k ==> Adjoining(traces[i - 1], traces[i])
  }

  lemma {:induction false} EndsGrow(traces: seq<Trace>, j: nat, k: nat)
    requires j <= k < |traces| && forall i :: j < i <= k ==> Adjoining(traces[i - 1], traces[i])
    ensures traces[j].end <= traces[k].end
  {
    if j < k {
      EndsGrow(traces, j, k - 1);
    }
  }

  /** By induction over the run: an open window is an unbroken stretch of absent rounds since its start. */
  lemma {:induction false} WindowIsUnbroken(traces: seq<Trace>, k: nat) returns (j: nat)
    requires Chain(traces) && k < |traces| && Open(traces[k].left)
    ensures Unbroken(traces, j, k) && traces[k].left.windowStart == traces[j].end
  {
    if !traces[k].continues {
      j := k;
    } else {
      assert Linked(traces[k - 1], traces[k]);
      j := WindowIsUnbroken(traces, k - 1);
      EndsGrow(traces, j, k - 1);
      assert Adjoining(traces[k - 1], traces[k]);
    }
  }

  ghost function TracesOf(rounds: seq<Round>): (traces: seq<Trace>)
    ensures |traces| == |rounds|
    ensures forall k :: 0 <= k < |rounds| ==> traces[k] == TraceOf(rounds[k])
  {
    seq(|rounds|, k requires 0 <= k < |rounds| => TraceOf(rounds[k]))
  }

  /** What a round passes on besides its window. */
  lemma KeptFacts(round: Round)
    requires Proper(round)
    ensures SameBesidesWindow(Settled(round.input, Opening(round)), round.after)
  {
    var settled, verdict := Settled(round.input, Opening(round)), Verdict(round.input, Opening(round));
    FinishedFacts(settled, verdict, round.input.soaMinimum, round.input.End(), Changed(round.input, Opening(round)),
                  round.after, round.decision);
  }

  lemma LeavesIdentity(round: Round)
    requires Proper(round)
    ensures round.after.identity == IdentityOf(round.input)
  {
    KeptFacts(round);
  }

  /** A round of a run finds what the round before left, but for its window and its due time. */
  lemma OpeningIsCarried(rounds: seq<Round>, identity: Identity, k: nat)
    requires Run(rounds, identity) && 0 < k < |rounds|
    ensures rounds[k - 1].after.identity == identity && rounds[k].before.Some?
    ensures Carried(rounds[k - 1].after, rounds[k].before.value) && rounds[k].before.value.identity == identity
    ensures Opening(rounds[k]) == rounds[k].before.value.(missingHistory := Opening(rounds[k]).missingHistory)
    ensures rounds[k].before.value.missingHistory ==> Opening(rounds[k]).missingHistory
  {
    assert Proper(rounds[k - 1]) && IdentityOf(rounds[k - 1].input) == identity by {
      assert Threaded(rounds, identity, k - 1);
    }
    LeavesIdentity(rounds[k - 1]);
    assert Follows(rounds[k - 1], rounds[k]) && IdentityOf(rounds[k].input) == identity by {
      assert Threaded(rounds, identity, k);
    }
  }

  lemma RunIsChain(rounds: seq<Round>, identity: Identity)
    requires Run(rounds, identity)
    ensures Chain(TracesOf(rounds))
  {
    assert rounds != [] ==> Threaded(rounds, identity, 0);
    forall k | 0 <= k < |rounds|
      ensures Leaves(TraceOf(rounds[k]))
    {
      assert Threaded(rounds, identity, k);
      ProperLeaves(rounds[k]);
    }
    forall k | 0 < k < |rounds|
      ensures Linked(TraceOf(rounds[k - 1]), TraceOf(rounds[k]))
    {
      RoundsAreLinked(rounds, identity, k);
    }
  }

  lemma RoundsAreLinked(rounds: seq<Round>, identity: Identity, k: nat)
    requires Run(rounds, identity) && 0 < k < |rounds|
    ensures Linked(TraceOf(rounds[k - 1]), TraceOf(rounds[k]))
  {
    OpeningIsCarried(rounds, identity, k);
  }

  /** Rounds j to k each found absence under the policy of round k, each ended in time after the one before. */
  ghost predicate AbsenceWindow(rounds: seq<Round>, j: nat, k: nat) {
    && j < k < |rounds|
    && (forall i :: j <= i <= k ==>
          && Absent(rounds[i]) && rounds[i].decision.status != Probe.Unknown
          && rounds[i].input.Print() == rounds[k].input.Print())
    && forall i :: j < i <= k ==>
         rounds[i - 1].input.End() <= rounds[i].input.End() <= Opening(rounds[i]).nextProbe + 300 * SECOND
  }

  /**
   A decision of True in any run ends an unbroken window of at least two absent rounds under one policy;
   the last round is strictly later than the round before it, and ends no earlier than the start of
   the window plus the SOA minimum.
   */
  lemma TrueEndsWindow(rounds: seq<Round>, identity: Identity, k: nat) returns (j: nat)
    requires Run(rounds, identity) && k < |rounds| && rounds[k].decision.status == Probe.True
    ensures AbsenceWindow(rounds, j, k)
    ensures rounds[k - 1].input.End() < rounds[k].input.End()
    ensures rounds[j].input.End() + rounds[k].input.soaMinimum * SECOND <= rounds[k].input.End()
  {
    RunIsChain(rounds, identity);
    var traces := TracesOf(rounds);
    assert Leaves(traces[k]);
    j := ConcludedWindow(traces, k);
    TracedWindow(rounds, j, k);
  }

  lemma TracedWindow(rounds: seq<Round>, j: nat, k: nat)
    requires j < k && Unbroken(TracesOf(rounds), j, k)
    ensures AbsenceWindow(rounds, j, k)
  {
    var traces := TracesOf(rounds);
    forall i | j < i <= k
      ensures rounds[i - 1].input.End() <= rounds[i].input.End() <= Opening(rounds[i]).nextProbe + 300 * SECOND
    {
      assert Adjoining(traces[i - 1], traces[i]);
    }
  }

  lemma ConcludedWindow(traces: seq<Trace>, k: nat) returns (j: nat)
    requires Chain(traces) && k < |traces| && Concludes(traces[k])
    ensures j < k && Unbroken(traces, j, k)
    ensures traces[k - 1].end < traces[k].end && traces[j].end + traces[k].minimum * SECOND <= traces[k].end
  {
    assert Linked(traces[k - 1], traces[k]);
    j := WindowIsUnbroken(traces, k);
    var earlier := WindowIsUnbroken(traces, k - 1);
    EndsGrow(traces, earlier, k - 1);
    assert traces[j].end == traces[earlier].end;
  }

  /** When the next probe is left as scheduled, successive rounds of a window end at most 330 s apart. */
  lemma ScheduledGap(rounds: seq<Round>, identity: Identity, j: nat, k: nat, i: nat)
    requires Run(rounds, identity) && AbsenceWindow(rounds, j, k) && j < i <= k
    requires Opening(rounds[i]).nextProbe == rounds[i - 1].after.nextProbe
    ensures rounds[i].input.End() <= rounds[i - 1].input.End() + 330 * SECOND
  {
    assert Threaded(rounds, identity, i - 1);
    ProperLeaves(rounds[i - 1]);
    OpeningIsCarried(rounds, identity, i);
  }

  // ---------- cached copies ----------

  /** No expiry is lowered. */
  ghost predicate Grows(before: map<Cache, Time>, after: map<Cache, Time>) {
    forall c :: Expiry(before, c) <= Expiry(after, c)
  }

  ghost predicate Growing(step: (nat, map<Cache, Time>) -> map<Cache, Time>) {
    forall i, positive :: Grows(positive, step(i, positive))
  }

  /** A pass only grows, and the outcome of its i-th step survives it. */
  lemma {:induction false} SightAllGrows(step: (nat, map<Cache, Time>) -> map<Cache, Time>, n: nat,
                                         positive: map<Cache, Time>)
    requires Growing(step)
    ensures Grows(positive, SightAll(step, n, positive))
    ensures forall i :: 0 <= i < n ==> Grows(step(i, SightAll(step, i, positive)), SightAll(step, n, positive))
  {
    if n > 0 {
      SightAllGrows(step, n - 1, positive);
      var sofar := SightAll(step, n - 1, positive);
      assert Grows(sofar, step(n - 1, sofar));
    }
  }

  /** The copy of `item` is remembered until its lifetime has passed, counted from `at`. */
  predicate Remembered(positive: map<Cache, Time>, name: Name, item: Probe.CacheEvidence, at: Time) {
    item.positiveTTL.Some? ==>
      at + item.positiveTTL.value * SECOND <= Expiry(positive, Copy(name, item.view, item.qtype))
  }

  lemma SightRemembers(input: Input, name: Name, i: nat, positive: map<Cache, Time>)
    requires input.claim.address.Parsed?
    ensures Grows(positive, Sight(input, name, i, positive))
    ensures forall item :: item in Excluded(input, name).cache ==>
      Remembered(Sight(input, name, i, positive), name, item, input.Start())
    ensures forall item :: item in Observed(input, name, i).cache ==>
      Remembered(Sight(input, name, i, positive), name, item, ReadAt(input, i))
  {
    var local := Excluded(input, name).cache;
    var probed := Observed(input, name, i).cache;
    SightTwice(positive, name, local, input.Start(), probed, ReadAt(input, i));
  }

  lemma SightTwice(positive: map<Cache, Time>, name: Name, local: seq<Probe.CacheEvidence>, start: Time,
                   probed: seq<Probe.CacheEvidence>, read: Time)
    ensures var after := RetainAll(RetainAll(positive, name, local, start), name, probed, read);
      && Grows(positive, after)
      && (forall item :: item in local ==> Remembered(after, name, item, start))
      && (forall item :: item in probed ==> Remembered(after, name, item, read))
  {
    RetainGrows(positive, name, local, start);
    RetainGrows(RetainAll(positive, name, local, start), name, probed, read);
  }

  /** The evidence of every name is remembered. */
  lemma SightedRemembers(input: Input, names: seq<Name>, positive: map<Cache, Time>, i: nat)
    requires input.claim.address.Parsed? && i < |names|
    ensures var after := Sighted(input, names, positive);
      && (forall item :: item in Excluded(input, names[i]).cache ==> Remembered(after, names[i], item, input.Start()))
      && (forall item :: item in Observed(input, names[i], i).cache ==>
            Remembered(after, names[i], item, ReadAt(input, i)))
  {
    SightPartGrows(input, names);
    var step := SightPart(input, names);
    SightAllGrows(step, |names|, positive);
    var sofar := SightAll(step, i, positive);
    SightRemembers(input, names[i], i, sofar);
    assert Grows(step(i, sofar), Sighted(input, names, positive));
  }

  lemma SightPartGrows(input: Input, names: seq<Name>)
    requires input.claim.address.Parsed?
    ensures Growing(SightPart(input, names))
  {
    var step := SightPart(input, names);
    forall i: nat, positive
      ensures Grows(positive, step(i, positive))
    {
      if i < |names| {
        SightRemembers(input, names[i], i, positive);
      }
    }
  }

  lemma RoundGrows(round: Round)
    requires Proper(round)
    ensures Grows(Opening(round).positive, round.after.positive)
  {
    KeptFacts(round);
    if Probes(round.input) {
      SightPartGrows(round.input, Opening(round).checkedNames);
      SightAllGrows(SightPart(round.input, Opening(round).checkedNames), |Opening(round).checkedNames|,
                    Opening(round).positive);
    }
  }

  lemma {:induction false} RunGrows(rounds: seq<Round>, identity: Identity, i: nat, k: nat)
    requires Run(rounds, identity) && i <= k < |rounds|
    ensures Grows(rounds[i].after.positive, rounds[k].after.positive)
  {
    if i < k {
      RunGrows(rounds, identity, i, k - 1);
      assert Threaded(rounds, identity, k);
      RoundGrows(rounds[k]);
      OpeningIsCarried(rounds, identity, k);
    }
  }

  /** A decision of True comes no earlier than any expiry the run ever held, a publication seed included. */
  lemma TrueIsAfterExpiries(rounds: seq<Round>, identity: Identity, i: nat, k: nat, cache: Cache)
    requires Run(rounds, identity) && i <= k < |rounds| && rounds[k].decision.status == Probe.True
    ensures Expiry(Opening(rounds[i]).positive, cache) <= rounds[k].input.End()
    ensures Expiry(rounds[i].after.positive, cache) <= rounds[k].input.End()
  {
    assert Threaded(rounds, identity, i) && Threaded(rounds, identity, k);
    RoundGrows(rounds[i]);
    RunGrows(rounds, identity, i, k);
    ProperLeaves(rounds[k]);
    assert Concludes(TraceOf(rounds[k]));
  }

  /**
   Cache safety: a decision of True comes no earlier than the observation plus the lifetime of every copy of
   the address that any round of the run saw, whether that round failed, changed policy or succeeded.
   */
  lemma TrueIsAfterLifetimes(rounds: seq<Round>, identity: Identity, i: nat, k: nat, n: nat, view: Probe.View,
                             answer: Probe.Answer)
    requires Run(rounds, identity) && i <= k < |rounds| && rounds[k].decision.status == Probe.True
    requires Probes(rounds[i].input) && n < |Opening(rounds[i]).checkedNames|
    requires Probe.Sighting(rounds[i].input.observe(n).views, view, answer, Address(rounds[i]).addr)
    requires answer.qtype in Probe.FAMILIES
    ensures ReadAt(rounds[i].input, n) + answer.positiveTTL.value * SECOND <= rounds[k].input.End()
  {
    var input, names := rounds[i].input, Opening(rounds[i]).checkedNames;
    SightedRemembers(input, names, Opening(rounds[i]).positive, n);
    assert Threaded(rounds, identity, i);
    KeptFacts(rounds[i]);
    var item := KeptItem(input, names[n], n, view, answer);
    TrueIsAfterExpiries(rounds, identity, i, k, Copy(names[n], item.view, item.qtype));
  }

  lemma KeptItem(input: Input, name: Name, n: nat, view: Probe.View, answer: Probe.Answer)
    returns (item: Probe.CacheEvidence)
    requires ValidClaim(input) && Probe.Sighting(input.observe(n).views, view, answer, input.claim.address.addr)
    requires answer.qtype in Probe.FAMILIES
    ensures item in Observed(input, name, n).cache && item.positiveTTL == answer.positiveTTL
  {
    Probe.SightingsAreKept(input.Request(name), input.observe(n).views, view, answer);
    item :| item in Observed(input, name, n).cache && item.view == view.id && item.qtype == answer.qtype
            && item.positiveTTL == answer.positiveTTL;
  }

  /** The same for copies the snapshot itself still held. */
  lemma TrueIsAfterSnapshotLifetimes(rounds: seq<Round>, identity: Identity, i: nat, k: nat, n: nat,
                                     item: Probe.CacheEvidence)
    requires Run(rounds, identity) && i <= k < |rounds| && rounds[k].decision.status == Probe.True
    requires Probes(rounds[i].input) && n < |Opening(rounds[i]).checkedNames|
    requires item in Excluded(rounds[i].input, Opening(rounds[i]).checkedNames[n]).cache && item.positiveTTL.Some?
    ensures rounds[i].input.Start() + item.positiveTTL.value * SECOND <= rounds[k].input.End()
  {
    var input, names := rounds[i].input, Opening(rounds[i]).checkedNames;
    SightedRemembers(input, names, Opening(rounds[i]).positive, n);
    assert Threaded(rounds, identity, i);
    KeptFacts(rounds[i]);
    TrueIsAfterExpiries(rounds, identity, i, k, Copy(names[n], item.view, item.qtype));
  }

  // ---------- the policy floor ----------

  /** The second memory demands at least what the first does. */
  ghost predicate FloorRises(before: Memory, after: Memory) {
    && (forall v :: v in before.views ==> v in after.views)
    && before.soaMinimum <= after.soaMinimum
    && (before.missingHistory ==> after.missingHistory)
  }

  lemma RoundRaisesFloor(round: Round)
    requires Proper(round)
    ensures FloorRises(Opening(round), round.after)
  {
    KeptFacts(round);
  }

  /** Along a run the floor never loses a view, the SOA floor never drops and missing history is never forgotten. */
  lemma {:induction false} FloorIsMonotone(rounds: seq<Round>, identity: Identity, i: nat, k: nat)
    requires Run(rounds, identity) && i <= k < |rounds|
    ensures FloorRises(rounds[i].after, rounds[k].after)
    ensures i < k ==> FloorRises(rounds[i].after, Opening(rounds[k]))
  {
    if i < k {
      FloorIsMonotone(rounds, identity, i, k - 1);
      OpeningIsCarried(rounds, identity, k);
      assert Threaded(rounds, identity, k);
      RoundRaisesFloor(rounds[k]);
    }
  }

  /**
   A decision of True means that history was never missing, that the minimum is no lower than ever before,
   and that every view ever in the floor was probed for every checked name in that very evaluation, and
   held the address in none of them.
   */
  lemma TrueMeetsFloor(rounds: seq<Round>, identity: Identity, i: nat, k: nat)
    requires Run(rounds, identity) && i < k < |rounds| && rounds[k].decision.status == Probe.True
    ensures Address(rounds[k]).Parsed?
    ensures !rounds[i].after.missingHistory && rounds[i].after.soaMinimum <= rounds[k].input.soaMinimum
    ensures forall v, n :: v in rounds[i].after.views && 0 <= n < |Opening(rounds[k]).checkedNames| ==>
      Probe.HasView(rounds[k].input.observe(n).views, v)
    ensures forall n, view :: 0 <= n < |Opening(rounds[k]).checkedNames| && view in rounds[k].input.observe(n).views ==>
      Probe.AbsentFrom(Address(rounds[k]).addr, view)
  {
    FloorIsMonotone(rounds, identity, i, k);
    var j := TrueEndsWindow(rounds, identity, k);
    AbsentMeetsFloor(rounds[k]);
  }

  /** An absent round probed every view of the floor it found, and saw the address in no view. */
  lemma AbsentMeetsFloor(round: Round)
    requires Absent(round)
    ensures !Opening(round).missingHistory && Opening(round).soaMinimum <= round.input.soaMinimum
    ensures forall v, n :: v in Opening(round).views && 0 <= n < |Opening(round).checkedNames| ==>
      Probe.HasView(round.input.observe(n).views, v)
    ensures forall n, view :: 0 <= n < |Opening(round).checkedNames| && view in round.input.observe(n).views ==>
      Probe.AbsentFrom(Address(round).addr, view)
  {
    forall v, n | v in Opening(round).views && 0 <= n < |Opening(round).checkedNames|
      ensures Probe.HasView(round.input.observe(n).views, v)
    {
      assert NameExcludes(round, Opening(round).checkedNames[n], n);
    }
    forall n, view | 0 <= n < |Opening(round).checkedNames| && view in round.input.observe(n).views
      ensures Probe.AbsentFrom(Address(round).addr, view)
    {
      assert NameExcludes(round, Opening(round).checkedNames[n], n);
    }
  }
}
