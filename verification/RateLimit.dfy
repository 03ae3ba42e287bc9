/**
 The per-source query limiter (server/ratelimit.go): a token bucket per source address, kept in a
 map and a list in order of last use. Times and tokens are real numbers, times in seconds.

 The arithmetic of refilling is a parameter, the `Meter`. `MeterOf` is the meter of the source;
 `Fair` is all that the statements about sequences of calls need to know of it.
 */
module RateLimit {
  import opened Names
  import opened Sequences

  const MAX_SOURCES: nat := 65536
  const IDLE_TIMEOUT: real := 60.0

  datatype Bucket = Bucket(tokens: real, updated: real)

  /** Most recently used source first. */
  datatype Limiter = Limiter(sources: map<Addr, Bucket>, lru: seq<Addr>)

  /** `refill` gives the tokens of a bucket at a later time. */
  datatype Meter = Meter(rate: real, refill: (Bucket, real) -> real)

  function Min(left: real, right: real): real {
    if left < right then left else right
  }

  function Elapsed(updated: real, now: real): real {
    if updated < now then now - updated else 0.0
  }

  function Refilled(rate: real, bucket: Bucket, now: real): real {
    Min(rate, bucket.tokens + Elapsed(bucket.updated, now) * rate)
  }

  function MeterOf(rate: real): Meter {
    Meter(rate, (bucket: Bucket, now: real) => Refilled(rate, bucket, now))
  }

  /** What the meter gains in d seconds, at most. */
  function GainOf(rate: real): real -> real {
    (d: real) => d * rate
  }

  function Spent(tokens: real, now: real): (Bucket, bool) {
    if tokens < 1.0 then (Bucket(tokens, now), false) else (Bucket(tokens - 1.0, now), true)
  }

  // ---------- what one call does ----------

  function Without(lru: seq<Addr>, address: Addr): seq<Addr> {
    if lru == [] then []
    else if lru[0] == address then lru[1..]
    else [lru[0]] + Without(lru[1..], address)
  }

  ghost predicate Valid(limiter: Limiter) {
    && (forall a :: a in limiter.lru <==> a in limiter.sources)
    && forall i, j :: 0 <= i < j < |limiter.lru| ==> limiter.lru[i] != limiter.lru[j]
  }

  /** Only the least recently used entry is looked at, and it is reclaimed once idle. */
  predicate Reclaims(limiter: Limiter, now: real) {
    && limiter.lru != []
    && var oldest := limiter.lru[|limiter.lru| - 1];
       oldest in limiter.sources && now - limiter.sources[oldest].updated >= IDLE_TIMEOUT
  }

  function Reclaimed(limiter: Limiter, now: real): Limiter {
    if Reclaims(limiter, now) then
      Limiter(limiter.sources - {limiter.lru[|limiter.lru| - 1]}, limiter.lru[..|limiter.lru| - 1])
    else limiter
  }

  /** No room for a new source. */
  predicate Full(limiter: Limiter, address: Addr) {
    address !in limiter.sources && |limiter.sources| >= MAX_SOURCES
  }

  function Found(meter: Meter, sources: map<Addr, Bucket>, address: Addr, now: real): Bucket {
    if address in sources then sources[address] else Bucket(meter.rate, now)
  }

  function Called(meter: Meter, limiter: Limiter, address: Addr, now: real): (Limiter, bool) {
    var kept := Reclaimed(limiter, now);
    if Full(kept, address) then (kept, false)
    else
      var (bucket, allowed) := Spent(meter.refill(Found(meter, kept.sources, address, now), now), now);
      (Limiter(kept.sources[address := bucket], [address] + Without(kept.lru, address)), allowed)
  }

  // ---------- the object ----------

  class SourceLimiter {
    const rate: real
    var sources: map<Addr, Bucket>
    var lru: seq<Addr>

    function Value(): Limiter
      reads this
    {
      Limiter(sources, lru)
    }

    constructor (rate: real)
      ensures this.rate == rate && Value() == Limiter(map[], [])
    {
      this.rate := rate;
      sources, lru := map[], [];
    }

    method Allow(address: Addr, now: real) returns (allowed: bool)
      requires Valid(Value())
      modifies this
      ensures (Value(), allowed) == Called(MeterOf(rate), old(Value()), address, now)
      ensures Valid(Value())
    {
      Reclaim(now);
      if address !in sources && |sources| >= MAX_SOURCES {
        return false;
      }
      ghost var kept := Value();
      Touch(address, now);
      var tokens := Refilled(rate, sources[address], now);
      assert tokens == MeterOf(rate).refill(Found(MeterOf(rate), kept.sources, address, now), now);
      allowed := Spend(address, tokens, now);
      assert sources == kept.sources[address := Spent(tokens, now).0];
      FrontIsValid(kept, address, sources[address]);
    }

    method Reclaim(now: real)
      requires Valid(Value())
      modifies this
      ensures Value() == Reclaimed(old(Value()), now) && Valid(Value())
    {
      ReclaimedIsValid(Value(), now);
      if |lru| > 0 {
        var oldest := lru[|lru| - 1];
        if now - sources[oldest].updated >= IDLE_TIMEOUT {
          sources := sources - {oldest};
          lru := lru[..|lru| - 1];
        }
      }
    }

    /** Add the source if it is new, and move it to the front. */
    method Touch(address: Addr, now: real)
      requires Valid(Value())
      modifies this
      ensures sources == old(sources)[address := Found(MeterOf(rate), old(sources), address, now)]
      ensures lru == [address] + Without(old(lru), address)
    {
      if address !in sources {
        sources := sources[address := Bucket(rate, now)];
        lru := [address] + lru;
      }
      MovedToFront(old(lru), lru, address);
      lru := [address] + Without(lru, address);
    }

    method Spend(address: Addr, tokens: real, now: real) returns (allowed: bool)
      modifies this`sources
      ensures sources == old(sources)[address := Spent(tokens, now).0] && allowed == Spent(tokens, now).1
    {
      sources := sources[address := Bucket(tokens, now)];
      if tokens < 1.0 {
        return false;
      }
      sources := sources[address := Bucket(tokens - 1.0, now)];
      allowed := true;
    }
  }

  lemma MovedToFront(kept: seq<Addr>, lru: seq<Addr>, address: Addr)
    requires lru == kept || (lru == [address] + kept && address !in kept)
    ensures [address] + Without(lru, address) == [address] + Without(kept, address)
  {
    if lru == [address] + kept && address !in kept {
      WithoutMembers(kept, address);
    }
  }

  lemma {:induction false} WithoutMembers(lru: seq<Addr>, address: Addr)
    requires forall i, j :: 0 <= i < j < |lru| ==> lru[i] != lru[j] || lru[i] != address
    ensures address !in Without(lru, address)
    ensures forall a :: a != address ==> (a in Without(lru, address) <==> a in lru)
    ensures address !in lru ==> Without(lru, address) == lru
  {
    if lru != [] {
      if lru[0] == address {
        assert forall j :: 0 < j < |lru| ==> lru[j] != address;
      } else {
        WithoutMembers(lru[1..], address);
      }
      assert lru == [lru[0]] + lru[1..];
    }
  }

  lemma {:induction false} WithoutDistinct(lru: seq<Addr>, address: Addr)
    requires forall i, j :: 0 <= i < j < |lru| ==> lru[i] != lru[j]
    ensures forall i, j :: 0 <= i < j < |Without(lru, address)| ==> Without(lru, address)[i] != Without(lru, address)[j]
  {
    if lru != [] && lru[0] != address {
      WithoutDistinct(lru[1..], address);
      WithoutMembers(lru[1..], address);
      assert lru[0] !in lru[1..];
    }
  }

  lemma ReclaimedIsValid(limiter: Limiter, now: real)
    requires Valid(limiter)
    ensures Valid(Reclaimed(limiter, now))
    ensures limiter.lru != [] ==> limiter.lru[|limiter.lru| - 1] in limiter.sources
  {
    if limiter.lru != [] {
      var last := |limiter.lru| - 1;
      assert limiter.lru[last] in limiter.lru;
      assert limiter.lru == limiter.lru[..last] + [limiter.lru[last]];
      assert limiter.lru[last] !in limiter.lru[..last];
    }
  }

  lemma FrontIsValid(kept: Limiter, address: Addr, bucket: Bucket)
    requires Valid(kept)
    ensures Valid(Limiter(kept.sources[address := bucket], [address] + Without(kept.lru, address)))
  {
    WithoutMembers(kept.lru, address);
    WithoutDistinct(kept.lru, address);
  }

  lemma CallIsValid(meter: Meter, limiter: Limiter, address: Addr, now: real)
    requires Valid(limiter)
    ensures Valid(Called(meter, limiter, address, now).0)
  {
    ReclaimedIsValid(limiter, now);
    var kept := Reclaimed(limiter, now);
    FrontIsValid(kept, address, Spent(meter.refill(Found(meter, kept.sources, address, now), now), now).0);
  }

  // ---------- fair meters ----------

  predicate Sane(rate: real, bucket: Bucket, now: real) {
    0.0 <= bucket.tokens <= rate && bucket.updated <= now
  }

  /** All that is needed of a meter, which gains at most `gain` over a span of time. */
  ghost predicate Fair(meter: Meter, gain: real -> real) {
    && meter.rate >= 0.0
    && (forall b: Bucket, t: real :: Keeps(meter, b, t))
    && (forall b: Bucket, t: real, u: real :: Rises(meter, gain, b, t, u))
    && (forall d: real :: d >= 0.0 ==> gain(d) >= 0.0)
  }

  /** A bucket stays between empty and full, is unchanged at once, and is full after a minute. */
  predicate Keeps(meter: Meter, bucket: Bucket, now: real) {
    Sane(meter.rate, bucket, now) ==>
      && 0.0 <= meter.refill(bucket, now) <= meter.rate
      && (now == bucket.updated ==> meter.refill(bucket, now) == bucket.tokens)
      && (now - bucket.updated >= IDLE_TIMEOUT ==> meter.refill(bucket, now) == meter.rate)
  }

  /** Between two times a bucket loses nothing and gains at most `gain`. */
  predicate Rises(meter: Meter, gain: real -> real, bucket: Bucket, now: real, later: real) {
    Sane(meter.rate, bucket, now) && now <= later ==>
      meter.refill(bucket, now) <= meter.refill(bucket, later) <= meter.refill(bucket, now) + gain(later - now)
  }

  lemma Scales(rate: real, small: real, large: real)
    requires rate >= 0.0 && small <= large
    ensures small * rate <= large * rate
  {
  }

  /** The meter of the source is fair: it gains `rate` tokens a second. */
  lemma MeterIsFair(rate: real)
    requires rate >= 0.0
    ensures Fair(MeterOf(rate), GainOf(rate))
  {
    var meter := MeterOf(rate);
    var gain := GainOf(rate);
    forall b: Bucket, t: real
      ensures Keeps(meter, b, t)
    {
      if Sane(rate, b, t) {
        RefillIsBounded(rate, b, t);
      }
    }
    forall b: Bucket, t: real, u: real
      ensures Rises(meter, gain, b, t, u)
    {
      if Sane(rate, b, t) && t <= u {
        RefillRises(rate, b, t, u);
      }
    }
    forall d: real | d >= 0.0
      ensures gain(d) >= 0.0
    {
      Scales(rate, 0.0, d);
    }
  }

  lemma RefillIsBounded(rate: real, bucket: Bucket, now: real)
    requires rate >= 0.0 && Sane(rate, bucket, now)
    ensures 0.0 <= Refilled(rate, bucket, now) <= rate
    ensures now == bucket.updated ==> Refilled(rate, bucket, now) == bucket.tokens
    ensures now - bucket.updated >= IDLE_TIMEOUT ==> Refilled(rate, bucket, now) == rate
  {
    Gains(rate, Elapsed(bucket.updated, now));
  }

  lemma Gains(rate: real, elapsed: real)
    requires rate >= 0.0 && elapsed >= 0.0
    ensures elapsed * rate >= 0.0
    ensures elapsed == 0.0 ==> elapsed * rate == 0.0
    ensures elapsed >= IDLE_TIMEOUT ==> elapsed * rate >= rate
  {
    if elapsed >= IDLE_TIMEOUT {
      assert (elapsed - 1.0) * rate >= 0.0;
      assert elapsed * rate == (elapsed - 1.0) * rate + rate;
    }
  }

  lemma RefillRises(rate: real, bucket: Bucket, now: real, later: real)
    requires rate >= 0.0 && Sane(rate, bucket, now) && now <= later
    ensures Refilled(rate, bucket, now) <= Refilled(rate, bucket, later)
    ensures Refilled(rate, bucket, later) <= Refilled(rate, bucket, now) + (later - now) * rate
  {
    var first, second := Elapsed(bucket.updated, now), Elapsed(bucket.updated, later);
    GainsMore(rate, first, second, later - now);
    Capped(rate, bucket.tokens, first * rate, second * rate, (later - now) * rate);
  }

  lemma GainsMore(rate: real, first: real, second: real, span: real)
    requires rate >= 0.0 && span >= 0.0 && second == first + span
    ensures second * rate == first * rate + span * rate && span * rate >= 0.0
  {
  }

  lemma Capped(rate: real, tokens: real, first: real, second: real, gained: real)
    requires second == first + gained && gained >= 0.0
    ensures Min(rate, tokens + first) <= Min(rate, tokens + second) <= Min(rate, tokens + first) + gained
  {
  }

  // ---------- the level of a source ----------

  /** The tokens a call at `time` would find. */
  function Level(meter: Meter, sources: map<Addr, Bucket>, address: Addr, time: real): real {
    if address in sources then meter.refill(sources[address], time) else meter.rate
  }

  /** Bucket contents stay between empty and full, and no bucket is from the future. */
  ghost predicate Bounded(meter: Meter, sources: map<Addr, Bucket>, now: real) {
    forall a :: a in sources ==> Sane(meter.rate, sources[a], now)
  }

  /** Reclaiming an idle source changes no level: its bucket was full again. */
  lemma ReclaimedLevel(meter: Meter, gain: real -> real, limiter: Limiter, now: real, address: Addr, later: real)
    requires Fair(meter, gain) && Valid(limiter) && Bounded(meter, limiter.sources, now) && now <= later
    ensures Bounded(meter, Reclaimed(limiter, now).sources, now)
    ensures Level(meter, Reclaimed(limiter, now).sources, address, later)
            == Level(meter, limiter.sources, address, later)
  {
    if Reclaims(limiter, now) && address == limiter.lru[|limiter.lru| - 1] {
      assert Keeps(meter, limiter.sources[address], later);
    }
  }

  lemma LevelIsBounded(meter: Meter, gain: real -> real, sources: map<Addr, Bucket>, address: Addr, now: real)
    requires Fair(meter, gain) && Bounded(meter, sources, now)
    ensures 0.0 <= Level(meter, sources, address, now) <= meter.rate
  {
    if address in sources {
      assert Keeps(meter, sources[address], now);
    }
  }

  /** A call finds the level of its source, and spends at most one token of it; no other level changes. */
  lemma CallSpends(meter: Meter, gain: real -> real, limiter: Limiter, address: Addr, now: real, other: Addr,
                   later: real)
    requires Fair(meter, gain) && Valid(limiter) && Bounded(meter, limiter.sources, now) && now <= later
    ensures Bounded(meter, Called(meter, limiter, address, now).0.sources, now)
    ensures other != address ==>
      Level(meter, Called(meter, limiter, address, now).0.sources, other, later) == Level(meter, limiter.sources,
          other, later)
    ensures Level(meter, Called(meter, limiter, address, now).0.sources, address, now)
            == Level(meter, limiter.sources, address, now)
               - (if Called(meter, limiter, address, now).1 then 1.0 else 0.0)
    ensures !Full(Reclaimed(limiter, now), address) ==>
      var result := Called(meter, limiter, address, now);
      && address in result.0.sources
      && (result.0.sources[address], result.1) == Spent(Level(meter, limiter.sources, address, now), now)
  {
    ReclaimedLevel(meter, gain, limiter, now, other, later);
    ReclaimedLevel(meter, gain, limiter, now, address, now);
    var kept := Reclaimed(limiter, now);
    if !Full(kept, address) {
      var found := Found(meter, kept.sources, address, now);
      assert Keeps(meter, found, now);
      assert meter.refill(found, now) == Level(meter, kept.sources, address, now);
      var (bucket, allowed) := Spent(meter.refill(found, now), now);
      assert Keeps(meter, bucket, now);
    }
  }

  // ---------- whole sequences of calls ----------

  datatype Call = Call(address: Addr, time: real)

  ghost predicate Ordered(calls: seq<Call>) {
    forall i, j :: 0 <= i < j < |calls| ==> calls[i].time <= calls[j].time
  }

  /** The limiter after the given calls. */
  function After(meter: Meter, calls: seq<Call>): Limiter {
    if calls == [] then Limiter(map[], [])
    else Called(meter, After(meter, calls[..|calls| - 1]), calls[|calls| - 1].address, calls[|calls| - 1].time).0
  }

  function Allows(meter: Meter, calls: seq<Call>, k: nat): bool
    requires k < |calls|
  {
    Called(meter, After(meter, calls[..k]), calls[k].address, calls[k].time).1
  }

  lemma {:induction false} RunIsBounded(meter: Meter, gain: real -> real, calls: seq<Call>, k: nat, now: real)
    requires Fair(meter, gain) && Ordered(calls) && k <= |calls| && (k > 0 ==> calls[k - 1].time <= now)
    ensures Valid(After(meter, calls[..k])) && Bounded(meter, After(meter, calls[..k]).sources, now)
  {
    if k > 0 {
      var call, before := calls[k - 1], After(meter, calls[..k - 1]);
      RunIsBounded(meter, gain, calls, k - 1, call.time);
      assert calls[..k][..k - 1] == calls[..k - 1];
      CallIsValid(meter, before, call.address, call.time);
      CallSpends(meter, gain, before, call.address, call.time, call.address, call.time);
    }
  }

  /** The number of tracked sources stays within the cap, whatever the meter and the times. */
  lemma {:induction false} SourcesFit(meter: Meter, calls: seq<Call>)
    ensures |After(meter, calls).sources| <= MAX_SOURCES
  {
    if calls != [] {
      var last := |calls| - 1;
      SourcesFit(meter, calls[..last]);
      CallFits(meter, After(meter, calls[..last]), calls[last].address, calls[last].time);
    }
  }

  lemma CallFits(meter: Meter, limiter: Limiter, address: Addr, now: real)
    requires |limiter.sources| <= MAX_SOURCES
    ensures |Called(meter, limiter, address, now).0.sources| <= MAX_SOURCES
  {
    var kept := Reclaimed(limiter, now);
    SubsetSize(kept.sources.Keys, limiter.sources.Keys);
    var after := Called(meter, limiter, address, now).0;
    if !Full(kept, address) {
      assert after.sources.Keys == kept.sources.Keys + {address};
    }
  }

  /** A source is forgotten only after a minute without a call from it. */
  lemma ActiveIsKept(meter: Meter, limiter: Limiter, address: Addr, now: real, other: Addr)
    requires other in limiter.sources && now - limiter.sources[other].updated < IDLE_TIMEOUT
    ensures other in Called(meter, limiter, address, now).0.sources
  {
  }

  // ---------- the bound on one source ----------

  function Decisions(meter: Meter, calls: seq<Call>): seq<bool> {
    seq(|calls|, k requires 0 <= k < |calls| => Allows(meter, calls, k))
  }

  /** How many of the calls from i up to j, j excluded, came from one source and were allowed. */
  function Allowed(calls: seq<Call>, decisions: seq<bool>, address: Addr, i: nat, j: nat): nat
    requires i <= j <= |calls| == |decisions|
    decreases j - i
  {
    if i == j then 0
    else Allowed(calls, decisions, address, i, j - 1)
         + if calls[j - 1].address == address && decisions[j - 1] then 1 else 0
  }

  /** `limiters` and `decisions` are what the calls went through, with all buckets within bounds. */
  ghost predicate Explains(meter: Meter, calls: seq<Call>, limiters: seq<Limiter>, decisions: seq<bool>) {
    && |limiters| == |calls| + 1 && |decisions| == |calls|
    && forall k :: 0 <= k < |calls| ==> At(meter, calls, limiters, decisions, k)
  }

  ghost predicate At(meter: Meter, calls: seq<Call>, limiters: seq<Limiter>, decisions: seq<bool>, k: nat)
    requires k < |calls| == |decisions| && |limiters| == |calls| + 1
  {
    && Valid(limiters[k]) && Bounded(meter, limiters[k].sources, calls[k].time)
    && Bounded(meter, limiters[k + 1].sources, calls[k].time)
    && Called(meter, limiters[k], calls[k].address, calls[k].time) == (limiters[k + 1], decisions[k])
  }

  lemma CallsExplained(meter: Meter, gain: real -> real, calls: seq<Call>) returns (limiters: seq<Limiter>)
    requires Fair(meter, gain) && Ordered(calls)
    ensures Explains(meter, calls, limiters, Decisions(meter, calls))
  {
    limiters := seq(|calls| + 1, k requires 0 <= k <= |calls| => After(meter, calls[..k]));
    forall k | 0 <= k < |calls|
      ensures At(meter, calls, limiters, Decisions(meter, calls), k)
    {
      CallExplained(meter, gain, calls, limiters, Decisions(meter, calls), k, k + 1);
    }
  }

  lemma CallExplained(meter: Meter, gain: real -> real, calls: seq<Call>, limiters: seq<Limiter>, decisions: seq<bool>,
                      k: nat, next: nat)
    requires Fair(meter, gain) && Ordered(calls) && k < |calls| == |decisions| && |limiters| == |calls| + 1
    requires next == k + 1
    requires limiters[k] == After(meter, calls[..k]) && limiters[next] == After(meter, calls[..next])
    requires decisions[k] == Allows(meter, calls, k)
    ensures At(meter, calls, limiters, decisions, k)
  {
    RunIsBounded(meter, gain, calls, k, calls[k].time);
    RunIsBounded(meter, gain, calls, next, calls[k].time);
    OneMoreCall(meter, calls, k, next);
  }

  lemma OneMoreCall(meter: Meter, calls: seq<Call>, k: nat, next: nat)
    requires k < |calls| && next == k + 1
    ensures Called(meter, After(meter, calls[..k]), calls[k].address, calls[k].time)
            == (After(meter, calls[..next]), Allows(meter, calls, k))
  {
    assert calls[..next][..k] == calls[..k];
  }

  /** The level of a source that call k finds, and the level it leaves. */
  function Finds(meter: Meter, calls: seq<Call>, limiters: seq<Limiter>, address: Addr, k: nat): real
    requires k < |calls| < |limiters|
  {
    Level(meter, limiters[k].sources, address, calls[k].time)
  }

  function LevelLeft(meter: Meter, calls: seq<Call>, limiters: seq<Limiter>, address: Addr, k: nat): real
    requires k < |calls| < |limiters|
  {
    Level(meter, limiters[k + 1].sources, address, calls[k].time)
  }

  /** A call takes its token, if any, out of the level it finds. */
  lemma OneCall(meter: Meter, gain: real -> real, calls: seq<Call>, limiters: seq<Limiter>, decisions: seq<bool>,
                address: Addr, i: nat, k: nat)
    requires Fair(meter, gain) && Explains(meter, calls, limiters, decisions) && i <= k < |calls|
    ensures Allowed(calls, decisions, address, i, k + 1) as real + LevelLeft(meter, calls, limiters, address, k)
            == Allowed(calls, decisions, address, i, k) as real + Finds(meter, calls, limiters, address, k)
    ensures Finds(meter, calls, limiters, address, k) <= meter.rate
    ensures 0.0 <= LevelLeft(meter, calls, limiters, address, k)
  {
    assert At(meter, calls, limiters, decisions, k);
    var now := calls[k].time;
    LevelIsBounded(meter, gain, limiters[k].sources, address, now);
    LevelIsBounded(meter, gain, limiters[k + 1].sources, address, now);
    CallSpends(meter, gain, limiters[k], calls[k].address, now, address, now);
  }

  /** Between two calls the level rises by no more than the gain. */
  lemma Between(meter: Meter, gain: real -> real, calls: seq<Call>, limiters: seq<Limiter>, decisions: seq<bool>,
                address: Addr, k: nat)
    requires Fair(meter, gain) && Ordered(calls) && Explains(meter, calls, limiters, decisions) && k + 1 < |calls|
    ensures Finds(meter, calls, limiters, address, k + 1)
            <= LevelLeft(meter, calls, limiters, address, k) + gain(calls[k + 1].time - calls[k].time)
  {
    assert At(meter, calls, limiters, decisions, k);
    var sources := limiters[k + 1].sources;
    if address in sources {
      assert Rises(meter, gain, sources[address], calls[k].time, calls[k + 1].time);
    }
  }

  ghost predicate Additive(gain: real -> real) {
    gain(0.0) == 0.0 && forall d: real, e: real :: Adds(gain, d, e)
  }

  predicate Adds(gain: real -> real, d: real, e: real) {
    gain(d) + gain(e) == gain(d + e)
  }

  /** What was allowed plus what is left never exceeds what there was plus what has come in. */
  lemma {:induction false} TokensAreConserved(meter: Meter, gain: real -> real, calls: seq<Call>,
                                              limiters: seq<Limiter>, decisions: seq<bool>,
                                              address: Addr, i: nat, j: nat)
    requires Fair(meter, gain) && Additive(gain) && Ordered(calls) && Explains(meter, calls, limiters, decisions)
    requires i <= j < |calls|
    ensures Allowed(calls, decisions, address, i, j + 1) as real + LevelLeft(meter, calls, limiters, address, j)
            <= Finds(meter, calls, limiters, address, i) + gain(calls[j].time - calls[i].time)
  {
    OneCall(meter, gain, calls, limiters, decisions, address, i, j);
    if i == j {
      assert calls[j].time - calls[i].time == 0.0;
    } else {
      TokensAreConserved(meter, gain, calls, limiters, decisions, address, i, j - 1);
      Between(meter, gain, calls, limiters, decisions, address, j - 1);
      Sums(gain, calls[i].time, calls[j - 1].time, calls[j].time);
    }
  }

  lemma Sums(gain: real -> real, start: real, middle: real, end: real)
    requires Additive(gain)
    ensures gain(middle - start) + gain(end - middle) == gain(end - start)
  {
    assert Adds(gain, middle - start, end - middle);
    assert (middle - start) + (end - middle) == end - start;
  }

  lemma GainIsAdditive(rate: real)
    ensures Additive(GainOf(rate))
  {
    var gain := GainOf(rate);
    forall d: real, e: real
      ensures Adds(gain, d, e)
    {
      Distributes(rate, d, e);
    }
    Distributes(rate, 0.0, 0.0);
  }

  lemma Distributes(rate: real, d: real, e: real)
    ensures Adds(GainOf(rate), d, e)
    ensures d + e == 0.0 ==> GainOf(rate)(d + e) == 0.0
  {
    assert (d + e) * rate == d * rate + e * rate;
  }

  /**
   In every sequence of calls, whatever is reclaimed or turned away for lack of room, one source is allowed at
   most `rate + rate * d` queries in any interval of d seconds; the calls from i to j are those of the interval.
   */
  lemma IntervalBound(rate: real, calls: seq<Call>, address: Addr, i: nat, j: nat, d: real)
    requires rate >= 0.0 && Ordered(calls) && i <= j < |calls| && calls[j].time - calls[i].time <= d
    ensures Allowed(calls, Decisions(MeterOf(rate), calls), address, i, j + 1) as real <= rate + rate * d
  {
    var span := calls[j].time - calls[i].time;
    var gain := SteadyGain(rate, span);
    var limiters := CallsExplained(MeterOf(rate), gain, calls);
    MeterBound(MeterOf(rate), gain, calls, limiters, Decisions(MeterOf(rate), calls), address, i, j);
    Longer(rate, Allowed(calls, Decisions(MeterOf(rate), calls), address, i, j + 1) as real, span, d);
  }

  lemma Longer(rate: real, allowed: real, span: real, d: real)
    requires rate >= 0.0 && span <= d && allowed <= rate + span * rate
    ensures allowed <= rate + rate * d
  {
    Scales(rate, span, d);
  }

  /** The gain of the meter, known only by what it gains. */
  lemma SteadyGain(rate: real, span: real) returns (gain: real -> real)
    requires rate >= 0.0
    ensures Fair(MeterOf(rate), gain) && Additive(gain) && gain(span) == span * rate
  {
    gain := GainOf(rate);
    MeterIsFair(rate);
    GainIsAdditive(rate);
  }

  lemma MeterBound(meter: Meter, gain: real -> real, calls: seq<Call>, limiters: seq<Limiter>, decisions: seq<bool>,
                   address: Addr, i: nat, j: nat)
    requires Fair(meter, gain) && Additive(gain) && Ordered(calls) && Explains(meter, calls, limiters, decisions)
    requires i <= j < |calls|
    ensures Allowed(calls, decisions, address, i, j + 1) as real <= meter.rate + gain(calls[j].time - calls[i].time)
  {
    TokensAreConserved(meter, gain, calls, limiters, decisions, address, i, j);
    OneCall(meter, gain, calls, limiters, decisions, address, i, i);
    OneCall(meter, gain, calls, limiters, decisions, address, i, j);
  }

  // ---------- reclaiming is invisible ----------

  /** The limiter that never reclaims and has room for every source. */
  function Unbounded(meter: Meter, calls: seq<Call>): map<Addr, Bucket> {
    if calls == [] then map[]
    else
      var call, before := calls[|calls| - 1], Unbounded(meter, calls[..|calls| - 1]);
      before[call.address := Spent(Level(meter, before, call.address, call.time), call.time).0]
  }

  function UnboundedAllows(meter: Meter, calls: seq<Call>, k: nat): bool
    requires k < |calls|
  {
    Spent(Level(meter, Unbounded(meter, calls[..k]), calls[k].address, calls[k].time), calls[k].time).1
  }

  /** No call is turned away for lack of room. */
  ghost predicate NeverFull(meter: Meter, calls: seq<Call>) {
    forall k :: 0 <= k < |calls| ==> !Full(Reclaimed(After(meter, calls[..k]), calls[k].time), calls[k].address)
  }

  /** The same levels from `now` on. */
  ghost predicate SameLevels(meter: Meter, left: map<Addr, Bucket>, right: map<Addr, Bucket>, now: real) {
    forall a, later: real :: now <= later ==> Level(meter, left, a, later) == Level(meter, right, a, later)
  }

  lemma {:induction false} LevelsAgree(meter: Meter, gain: real -> real, calls: seq<Call>, k: nat, now: real)
    requires Fair(meter, gain) && Ordered(calls) && NeverFull(meter, calls)
    requires k <= |calls| && (k > 0 ==> calls[k - 1].time <= now)
    ensures SameLevels(meter, After(meter, calls[..k]).sources, Unbounded(meter, calls[..k]), now)
  {
    if k > 0 {
      var call := calls[k - 1];
      var before, unbounded := After(meter, calls[..k - 1]), Unbounded(meter, calls[..k - 1]);
      LevelsAgree(meter, gain, calls, k - 1, call.time);
      RunIsBounded(meter, gain, calls, k - 1, call.time);
      assert calls[..k][..k - 1] == calls[..k - 1];
      assert !Full(Reclaimed(before, call.time), call.address);
      StepsAgree(meter, gain, before, unbounded, call, now);
    }
  }

  lemma StepsAgree(meter: Meter, gain: real -> real, before: Limiter, unbounded: map<Addr, Bucket>, call: Call,
                   now: real)
    requires Fair(meter, gain) && Valid(before) && Bounded(meter, before.sources, call.time) && call.time <= now
    requires SameLevels(meter, before.sources, unbounded, call.time)
    requires !Full(Reclaimed(before, call.time), call.address)
    ensures SameLevels(meter, Called(meter, before, call.address, call.time).0.sources,
                       unbounded[call.address := Spent(Level(meter, unbounded, call.address, call.time),
                                                       call.time).0], now)
  {
    var after := Called(meter, before, call.address, call.time).0;
    forall a, later: real | now <= later
      ensures Level(meter, after.sources, a, later)
              == Level(meter, unbounded[call.address := Spent(Level(meter, unbounded, call.address, call.time),
                                                              call.time).0], a, later)
    {
      CallSpends(meter, gain, before, call.address, call.time, a, later);
      assert Level(meter, before.sources, call.address, call.time) == Level(meter, unbounded, call.address, call.time);
    }
  }

  /** Over any ordered sequence of calls that never fills the table, every decision is that of the unbounded limiter. */
  lemma ReclaimingIsInvisible(rate: real, calls: seq<Call>, k: nat)
    requires rate >= 0.0 && Ordered(calls) && NeverFull(MeterOf(rate), calls) && k < |calls|
    ensures Allows(MeterOf(rate), calls, k) == UnboundedAllows(MeterOf(rate), calls, k)
  {
    MeterIsFair(rate);
    DecisionsAgree(MeterOf(rate), GainOf(rate), calls, k);
  }

  lemma DecisionsAgree(meter: Meter, gain: real -> real, calls: seq<Call>, k: nat)
    requires Fair(meter, gain) && Ordered(calls) && NeverFull(meter, calls) && k < |calls|
    ensures Allows(meter, calls, k) == UnboundedAllows(meter, calls, k)
  {
    var call, before := calls[k], After(meter, calls[..k]);
    LevelsAgree(meter, gain, calls, k, call.time);
    RunIsBounded(meter, gain, calls, k, call.time);
    CallSpends(meter, gain, before, call.address, call.time, call.address, call.time);
    assert !Full(Reclaimed(before, call.time), call.address);
  }
}
