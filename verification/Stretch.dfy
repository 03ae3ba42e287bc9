/**
 When an address that stays gone is released: the exact moment `Withdrawn=True` is reached in an
 unbroken stretch of favourable evaluations (withdrawal/evaluator.go and withdrawal/state.go).
 */
module Stretches {
  import opened Names
  import opened States
  import opened Evaluator
  import opened Runs
  import Probe

  /**
   Rounds j to k find absence: round j opens a window, and each later round finds it open, goes on with it and ends
   later.
   */
  ghost predicate Stretch(rounds: seq<Round>, j: nat, k: nat) {
    j <= k < |rounds| && forall i :: j <= i <= k ==> InStretch(rounds, j, i)
  }

  ghost predicate InStretch(rounds: seq<Round>, j: nat, i: nat)
    requires j <= i < |rounds|
  {
    && Favourable(rounds[i])
    && (GoesOn(rounds[i]) <==> i > j)
    && (i > j ==> rounds[i - 1].input.End() < rounds[i].input.End())
  }

  predicate GoesOn(round: Round) {
    Open(Opening(round)) && !Broken(round)
  }

  /** The minimum since the start of a window and every cached copy have run out, to the whole second. */
  ghost predicate RunOut(start: Time, minimum: nat, positive: map<Cache, Time>, now: Time) {
    && RoundUp(start + minimum * SECOND) <= now
    && forall c :: c in positive ==> RoundUp(positive[c]) <= now
  }

  /** The window of a memory: once the minimum and the copies have run out at `now`, its horizon has passed. */
  ghost predicate Keeps(memory: Memory, start: Time, minimum: nat, now: Time) {
    && memory.absentSince.Some? && memory.windowStart == start && memory.negative == Some(minimum)
    && Reached(memory.notBefore, start, minimum, memory.positive, now)
  }

  ghost predicate Reached(horizon: Option<Time>, start: Time, minimum: nat, positive: map<Cache, Time>, now: Time) {
    horizon.Some? ==>
      RoundUp(horizon.value) == horizon.value && (RunOut(start, minimum, positive, now) ==> horizon.value <= now)
  }

  /** Without a window there is no horizon and no minimum. */
  predicate Clean(memory: Memory) {
    memory.absentSince.None? ==> memory.notBefore.None? && memory.negative.None?
  }

  // ---------- one counted absence ----------

  /** The least bound above a base and some expiries has passed once they have. */
  lemma HorizonPasses(horizon: Time, base: Time, positive: map<Cache, Time>, now: Time)
    requires IsHorizon(horizon, base, positive) && RoundUp(base) <= now
    requires forall c :: c in positive ==> RoundUp(positive[c]) <= now
    ensures RoundUp(RoundUp(horizon)) == RoundUp(horizon) <= now
  {
  }

  lemma CountedKeeps(settled: Memory, minimum: nat, end: Time, after: Memory, start: Time, now: Time)
    requires Windowed(settled, minimum, end, after) && Clean(settled)
    requires if Open(settled) then Keeps(settled, start, minimum, now) else start == end
    ensures Keeps(after, start, minimum, now)
  {
    WindowFacts(settled, minimum, end, after);
    var started := Started(Repaired(settled), minimum, end);
    var horizon :| IsHorizon(horizon, Base(started), settled.positive) && after.notBefore == Some(RoundUp(horizon));
    HorizonReached(settled.positive, started.notBefore, Base(started), horizon, start, minimum, now);
  }

  lemma HorizonReached(positive: map<Cache, Time>, earlier: Option<Time>, base: Time, horizon: Time, start: Time,
                       minimum: nat, now: Time)
    requires Reached(earlier, start, minimum, positive, now) && IsHorizon(horizon, base, positive)
    requires base == start + minimum * SECOND || earlier == Some(base)
    ensures Reached(Some(RoundUp(horizon)), start, minimum, positive, now)
  {
    if RunOut(start, minimum, positive, now) {
      HorizonPasses(horizon, base, positive, now);
    }
    WholeStays(horizon);
  }

  lemma WholeStays(time: Time)
    ensures RoundUp(RoundUp(time)) == RoundUp(time)
  {
  }

  lemma FinishedKeeps(settled: Memory, verdict: Probe.Decision, minimum: nat, end: Time, changed: bool, after: Memory,
                      decision: Probe.Decision, start: Time, now: Time)
    requires Finished(settled, verdict, minimum, end, changed, after, decision) && verdict.status == Probe.True
    requires Clean(settled)
    requires if Open(settled) then Keeps(settled, start, minimum, now) else start == end
    ensures Keeps(after, start, minimum, now)
  {
    var counted :| Counted(settled, verdict, minimum, end, counted, decision)
                   && after == Scheduled(counted, decision.status, changed, end);
    CountedKeeps(settled, minimum, end, counted, start, now);
  }

  /** Whatever a round does, it leaves no horizon and no minimum without a window. */
  lemma FinishedIsClean(settled: Memory, verdict: Probe.Decision, minimum: nat, end: Time, changed: bool,
                        after: Memory, decision: Probe.Decision)
    requires Finished(settled, verdict, minimum, end, changed, after, decision)
    ensures Clean(after)
  {
  }

  lemma OpeningIsClean(rounds: seq<Round>, identity: Identity, i: nat)
    requires Run(rounds, identity) && i < |rounds|
    ensures Clean(Opening(rounds[i]))
  {
    assert Threaded(rounds, identity, i);
    if i > 0 {
      assert Threaded(rounds, identity, i - 1);
      LeavesClean(rounds[i - 1]);
      OpeningIsCarried(rounds, identity, i);
      CarriedIsClean(rounds[i - 1].after, rounds[i].before.value);
    }
  }

  lemma LeavesClean(round: Round)
    requires Proper(round)
    ensures Clean(round.after)
  {
    var settled := SettledFacts(round);
    FinishedIsClean(settled, Verdict(round.input, Opening(round)), round.input.soaMinimum, round.input.End(),
                    Changed(round.input, Opening(round)), round.after, round.decision);
  }

  lemma CarriedIsClean(left: Memory, loaded: Memory)
    requires Carried(left, loaded) && Clean(left)
    ensures Clean(loaded)
  {
  }

  // ---------- one round of a stretch ----------

  lemma SettledIsClean(input: Input, opening: Memory)
    requires Clean(opening)
    ensures Clean(Settled(input, opening))
  {
  }

  lemma OpeningKeeps(rounds: seq<Round>, identity: Identity, i: nat, start: Time, minimum: nat, now: Time)
    requires Run(rounds, identity) && 0 < i < |rounds| && Open(Opening(rounds[i]))
    requires Keeps(rounds[i - 1].after, start, minimum, now)
    ensures Keeps(Opening(rounds[i]).(positive := rounds[i].after.positive), start, minimum, now)
  {
    OpeningIsCarried(rounds, identity, i);
    assert Threaded(rounds, identity, i);
    RoundGrows(rounds[i]);
    CarriedKeeps(rounds[i - 1].after, Opening(rounds[i]), rounds[i].after.positive, start, minimum, now);
  }

  lemma CarriedKeeps(left: Memory, loaded: Memory, positive: map<Cache, Time>, start: Time, minimum: nat, now: Time)
    requires Keeps(left, start, minimum, now) && Grows(left.positive, positive)
    requires Open(loaded) && loaded.windowStart == left.windowStart && loaded.negative == left.negative
    requires StoredTime(left.notBefore, loaded.notBefore)
    ensures Keeps(loaded.(positive := positive), start, minimum, now)
  {
    if RunOut(start, minimum, positive, now) {
      forall c | c in left.positive
        ensures RoundUp(left.positive[c]) <= now
      {
        assert Expiry(left.positive, c) <= Expiry(positive, c);
        RoundUpMonotone(left.positive[c], Expiry(positive, c));
      }
    }
  }

  /** A favourable round opens a window, or goes on with the one it found. */
  lemma RoundKeeps(round: Round, start: Time, now: Time)
    requires Proper(round) && Favourable(round) && Clean(Opening(round))
    requires if GoesOn(round)
             then Keeps(Opening(round).(positive := round.after.positive), start, round.input.soaMinimum, now)
             else start == round.input.End()
    ensures Keeps(round.after, start, round.input.soaMinimum, now)
  {
    VerdictExactly(round);
    var settled := Settled(round.input, Opening(round));
    SettledIsClean(round.input, Opening(round));
    FinishedKeeps(settled, Verdict(round.input, Opening(round)), round.input.soaMinimum, round.input.End(),
                  Changed(round.input, Opening(round)), round.after, round.decision, start, now);
  }

  /** Under an unchanged policy the minimum stays what it was. */
  lemma SameMinimum(rounds: seq<Round>, identity: Identity, i: nat)
    requires Run(rounds, identity) && 0 < i < |rounds| && !Changed(rounds[i].input, Opening(rounds[i]))
    ensures rounds[i].input.soaMinimum == rounds[i - 1].input.soaMinimum
    ensures Opening(rounds[i]).lastProbe == rounds[i - 1].input.End()
  {
    OpeningIsCarried(rounds, identity, i);
    assert Threaded(rounds, identity, i - 1);
    ProperLeaves(rounds[i - 1]);
  }

  // ---------- the whole stretch ----------

  /** What the account of a stretch needs of one round; `found` holds the copies seen in the round as well. */
  datatype Mark = Mark(goesOn: bool, end: Time, minimum: nat, found: Memory, left: Memory, released: bool)

  ghost function MarkOf(round: Round): Mark {
    Mark(GoesOn(round), round.input.End(), round.input.soaMinimum,
         Opening(round).(positive := round.after.positive), round.after, round.decision.status == Probe.True)
  }

  /** The round keeps the window that opened at `start`. */
  ghost predicate Counts(mark: Mark, start: Time, now: Time) {
    (if mark.goesOn then Keeps(mark.found, start, mark.minimum, now) else start == mark.end)
    ==> Keeps(mark.left, start, mark.minimum, now)
  }

  /** The round goes on with the window the round before left. */
  ghost predicate Joins(previous: Mark, mark: Mark, start: Time, now: Time) {
    && mark.goesOn && Open(mark.found) && mark.minimum == previous.minimum
    && mark.found.lastProbe == previous.end < mark.end
    && (Keeps(previous.left, start, mark.minimum, now) ==> Keeps(mark.found, start, mark.minimum, now))
  }

  /** The round releases exactly when it is later than the last probe and every bound of the window has passed. */
  ghost predicate Releases(mark: Mark) {
    mark.released <==>
      mark.found.lastProbe != 0 && mark.found.lastProbe < mark.end && Due(mark.found, mark.minimum, mark.end)
  }

  ghost predicate Marked(marks: seq<Mark>, j: nat, k: nat, now: Time) {
    && j <= k < |marks| && !marks[j].goesOn
    && (forall i :: j <= i <= k ==> Counts(marks[i], marks[j].end, now))
    && forall i :: j < i <= k ==> Joins(marks[i - 1], marks[i], marks[j].end, now)
  }

  lemma {:induction false} MarksKeep(marks: seq<Mark>, j: nat, i: nat, k: nat, now: Time)
    requires Marked(marks, j, k, now) && i <= k && j <= i
    ensures Keeps(marks[i].left, marks[j].end, marks[i].minimum, now) && marks[j].end <= marks[i].end
  {
    assert Counts(marks[i], marks[j].end, now);
    if j < i {
      MarksKeep(marks, j, i - 1, k, now);
      assert Joins(marks[i - 1], marks[i], marks[j].end, now);
    }
  }

  lemma MarkReleases(marks: seq<Mark>, j: nat, k: nat)
    requires j < k < |marks| && Marked(marks, j, k, marks[k].end) && Releases(marks[k])
    ensures marks[k].released <==> RunOut(marks[j].end, marks[k].minimum, marks[k].found.positive, marks[k].end)
  {
    MarksKeep(marks, j, k - 1, k, marks[k].end);
    assert Joins(marks[k - 1], marks[k], marks[j].end, marks[k].end);
  }

  lemma RoundCounts(rounds: seq<Round>, identity: Identity, j: nat, k: nat, i: nat, start: Time, now: Time)
    requires Run(rounds, identity) && Stretch(rounds, j, k) && j <= i <= k
    ensures Counts(MarkOf(rounds[i]), start, now)
  {
    OpeningIsClean(rounds, identity, i);
    assert Threaded(rounds, identity, i) && InStretch(rounds, j, i);
    if MarkOf(rounds[i]).goesOn ==> Keeps(MarkOf(rounds[i]).found, start, rounds[i].input.soaMinimum, now) {
      if MarkOf(rounds[i]).goesOn || start == rounds[i].input.End() {
        RoundKeeps(rounds[i], start, now);
      }
    }
  }

  lemma RoundJoins(rounds: seq<Round>, identity: Identity, j: nat, k: nat, i: nat, start: Time, now: Time)
    requires Run(rounds, identity) && Stretch(rounds, j, k) && j < i <= k
    ensures Joins(MarkOf(rounds[i - 1]), MarkOf(rounds[i]), start, now)
  {
    assert InStretch(rounds, j, i);
    SameMinimum(rounds, identity, i);
    if Keeps(rounds[i - 1].after, start, rounds[i].input.soaMinimum, now) {
      OpeningKeeps(rounds, identity, i, start, rounds[i].input.soaMinimum, now);
    }
  }

  ghost function MarksOf(rounds: seq<Round>): (marks: seq<Mark>)
    ensures |marks| == |rounds| && forall i :: 0 <= i < |rounds| ==> marks[i] == MarkOf(rounds[i])
  {
    seq(|rounds|, i requires 0 <= i < |rounds| => MarkOf(rounds[i]))
  }

  lemma StretchIsMarked(rounds: seq<Round>, identity: Identity, j: nat, k: nat, now: Time)
    requires Run(rounds, identity) && Stretch(rounds, j, k)
    ensures Marked(MarksOf(rounds), j, k, now)
  {
    var marks := MarksOf(rounds);
    assert InStretch(rounds, j, j);
    forall i | j <= i <= k
      ensures Counts(marks[i], marks[j].end, now)
    {
      RoundCounts(rounds, identity, j, k, i, marks[j].end, now);
    }
    forall i | j < i <= k
      ensures Joins(marks[i - 1], marks[i], marks[j].end, now)
    {
      RoundJoins(rounds, identity, j, k, i, marks[j].end, now);
    }
  }

  /**
   In every run, an address that stays gone is released at exactly the rounds that end no earlier than the start
   of the window plus the SOA minimum and the expiry of every cached copy, each counted to the whole second.
   */
  lemma ReleasedExactlyWhenRunOut(rounds: seq<Round>, identity: Identity, j: nat, k: nat)
    requires Run(rounds, identity) && j < k && Stretch(rounds, j, k)
    ensures rounds[k].decision.status == Probe.True <==>
      RunOut(rounds[j].input.End(), rounds[k].input.soaMinimum, rounds[k].after.positive, rounds[k].input.End())
  {
    assert InStretch(rounds, j, k) && Threaded(rounds, identity, k);
    TrueExactly(rounds[k]);
    StretchIsMarked(rounds, identity, j, k, rounds[k].input.End());
    MarkReleases(MarksOf(rounds), j, k);
  }
}
