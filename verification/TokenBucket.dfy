/** The token bucket of src/security/limiter.ts in exact arithmetic.

    Rates are tokens per second, times are milliseconds.  The bucket lives in a Redis hash
    that Redis drops when its TTL runs out. */
module TokenBucket {
  import opened Options

  const MAX_TTL_SECONDS := 86_400

  datatype Limits = Limits(capacity: real, refillRate: real) {
    /** What `validateLimit` accepts for both numbers. */
    predicate Valid() {
      0.0 < capacity <= 1_000_000.0 && 0.0 < refillRate <= 1_000_000.0
    }
  }

  type ValidLimits = l: Limits | l.Valid() witness Limits(1.0, 1.0)

  datatype Bucket = Bucket(tokens: real, lastRefill: int)

  datatype Decision = Decision(allowed: bool, remaining: int, retryAfter: int)

  function Min(a: real, b: real): real { if a <= b then a else b }

  function MinInt(a: int, b: int): int { if a <= b then a else b }

  function MaxInt(a: int, b: int): int { if a >= b then a else b }

  function Ceil(x: real): (n: int)
    ensures x <= n as real < x + 1.0
  {
    -((-x).Floor)
  }

  /** Tokens refilled between two times; a clock that runs backwards refills nothing. */
  function Refill(l: Limits, since: int, now: int): real {
    if now <= since then 0.0 else (now - since) as real / 1000.0 * l.refillRate
  }

  /** The tokens there are at `now`; a missing bucket is a full one. */
  function Available(l: Limits, bucket: Option<Bucket>, now: int): real {
    match bucket
    case None => l.capacity
    case Some(b) => Min(l.capacity, b.tokens + Refill(l, b.lastRefill, now))
  }

  /** `TOKEN_BUCKET_SCRIPT` with the clamping that `consume` applies to its reply. */
  function Script(l: ValidLimits, bucket: Option<Bucket>, now: int): (Bucket, Decision) {
    var available := Available(l, bucket, now);
    if available < 1.0 then
      (Bucket(available, now),
       Decision(false, MaxInt(0, available.Floor), MaxInt(1, Ceil((1.0 - available) / l.refillRate))))
    else
      (Bucket(available - 1.0, now), Decision(true, MaxInt(0, (available - 1.0).Floor), 0))
  }

  function TtlSeconds(l: ValidLimits): int {
    MaxInt(60, MinInt(MAX_TTL_SECONDS, Ceil(l.capacity / l.refillRate * 2.0)))
  }

  // ----- the stored hash, updated in place -----

  class TokenBucket {
    var tokens: Option<real>
    var lastRefill: Option<int>
    var expiresAt: int

    /** The script writes both fields or neither. */
    ghost predicate Valid()
      reads this
    {
      tokens.Some? <==> lastRefill.Some?
    }

    constructor ()
      ensures Valid() && forall now :: Stored(now) == None
    {
      tokens, lastRefill, expiresAt := None, None, 0;
    }

    /** The bucket as Redis has it at `now`. */
    function Stored(now: int): Option<Bucket>
      reads this
    {
      if tokens.Some? && lastRefill.Some? && now < expiresAt then Some(Bucket(tokens.value, lastRefill.value))
      else None
    }

    method Consume(l: ValidLimits, now: int) returns (d: Decision)
      requires Valid()
      modifies this
      ensures Valid()
      ensures d == Script(l, old(Stored(now)), now).1
      ensures forall later :: Stored(later) == Evicted(l, Some(Script(l, old(Stored(now)), now).0), later)
    {
      hide TtlSeconds;
      var ttl := TtlSeconds(l);
      if now >= expiresAt { tokens, lastRefill := None, None; }
      var held := if tokens.Some? then tokens.value else l.capacity;
      var last := if lastRefill.Some? then lastRefill.value else now;
      var elapsed := if now - last > 0 then (now - last) as real / 1000.0 else 0.0;
      var available := Min(l.capacity, held + elapsed * l.refillRate);
      assert available == Available(l, old(Stored(now)), now);
      if available < 1.0 {
        var retryAfter := Ceil((1.0 - available) / l.refillRate);
        tokens, lastRefill, expiresAt := Some(available), Some(now), now + 1000 * ttl;
        return Decision(false, MaxInt(0, available.Floor), MaxInt(1, retryAfter));
      }
      available := available - 1.0;
      tokens, lastRefill, expiresAt := Some(available), Some(now), now + 1000 * ttl;
      d := Decision(true, MaxInt(0, available.Floor), 0);
    }
  }

  // ----- runs -----

  predicate NonDecreasing(times: seq<int>) {
    forall i, j :: 0 <= i < j < |times| ==> times[i] <= times[j]
  }

  /** The bucket after requests at the given times, starting full and never evicted. */
  function After(l: ValidLimits, times: seq<int>): Option<Bucket> {
    if times == [] then None
    else Some(Script(l, After(l, times[..|times| - 1]), times[|times| - 1]).0)
  }

  /** The decision on request k. */
  function DecisionAt(l: ValidLimits, times: seq<int>, k: nat): Decision
    requires k < |times|
  {
    Script(l, After(l, times[..k]), times[k]).1
  }

  predicate AllAdmitted(l: ValidLimits, times: seq<int>) {
    forall k :: 0 <= k < |times| ==> DecisionAt(l, times, k).allowed
  }

  /** The requests i..j fit into what the bucket can hold and refill over their span. */
  predicate Fits(l: Limits, times: seq<int>, i: nat, j: nat)
    requires i <= j < |times|
  {
    FitsSpan(l, j - i + 1, times[j] - times[i])
  }

  predicate FitsSpan(l: Limits, requests: int, span: int) {
    requests as real <= l.capacity + span as real / 1000.0 * l.refillRate
  }

  ghost predicate Envelope(l: Limits, times: seq<int>) {
    forall i, j :: 0 <= i <= j < |times| ==> Fits(l, times, i, j)
  }

  lemma RefillAdds(l: ValidLimits, a: int, b: int, c: int)
    requires a <= b <= c
    ensures Refill(l, a, b) + Refill(l, b, c) == Refill(l, a, c)
    ensures Refill(l, a, b) == (b - a) as real / 1000.0 * l.refillRate
    ensures 0.0 <= Refill(l, a, b) && 0.0 <= Refill(l, b, c)
  {
  }

  /** What the requests i..|times|-1, all admitted, leave of the capacity at time `now`. */
  function Slack(l: Limits, times: seq<int>, i: nat, now: int): real
    requires i < |times|
  {
    l.capacity + Refill(l, times[i], now) - (|times| - i) as real
  }

  /** The tokens left after an admitted run are the smallest slack of all its suffixes. */
  ghost predicate IsLeastSlack(l: Limits, times: seq<int>, bucket: Bucket)
    requires times != []
  {
    var now := times[|times| - 1];
    && bucket.lastRefill == now
    && (forall i :: 0 <= i < |times| ==> bucket.tokens <= Slack(l, times, i, now))
    && (exists i :: 0 <= i < |times| && bucket.tokens == Slack(l, times, i, now))
  }

  lemma SlackGrows(l: ValidLimits, times: seq<int>, t: int, i: nat)
    requires i < |times| && NonDecreasing(times + [t])
    ensures Slack(l, times + [t], i, t)
            == Slack(l, times, i, times[|times| - 1]) + Refill(l, times[|times| - 1], t) - 1.0
  {
    var all := times + [t];
    assert all[i] == times[i] && all[|times|] == t && all[|times| - 1] == times[|times| - 1];
    assert i == |times| - 1 || all[i] <= all[|times| - 1];
    RefillAdds(l, times[i], times[|times| - 1], t);
  }

  lemma SlackAtEnd(l: ValidLimits, times: seq<int>)
    requires times != []
    ensures Slack(l, times, |times| - 1, times[|times| - 1]) == l.capacity - 1.0
  {
  }

  lemma {:induction false} OrderedLeaveLeastSlack(l: ValidLimits, times: seq<int>)
    requires times != [] && NonDecreasing(times) && AllAdmitted(l, times)
    ensures IsLeastSlack(l, times, After(l, times).value)
  {
    hide Refill, Slack, Available, IsLeastSlack, Fits;
    var before, t := times[..|times| - 1], times[|times| - 1];
    assert times == before + [t] && DecisionAt(l, times, |before|).allowed;
    if before == [] {
      FirstLeavesLeastSlack(l, t);
    } else {
      PrefixAdmitted(l, times, |before|);
      OrderedLeaveLeastSlack(l, before);
      LeastSlackStep(l, before, t, After(l, before).value);
    }
  }

  lemma FirstLeavesLeastSlack(l: ValidLimits, t: int)
    requires Script(l, None, t).1.allowed
    ensures IsLeastSlack(l, [t], Script(l, None, t).0)
  {
    SlackAtEnd(l, [t]);
    assert Script(l, None, t).0.tokens == Slack(l, [t], 0, t);
  }

  lemma LeastSlackStep(l: ValidLimits, times: seq<int>, t: int, bucket: Bucket)
    requires times != [] && NonDecreasing(times + [t]) && IsLeastSlack(l, times, bucket)
    ensures IsLeastSlack(l, times + [t], Bucket(Available(l, Some(bucket), t) - 1.0, t))
  {
    hide Refill, Slack;
    var all, last := times + [t], times[|times| - 1];
    var left := Available(l, Some(bucket), t) - 1.0;
    SlackAtEnd(l, all);
    forall i | 0 <= i < |times| ensures left <= Slack(l, all, i, t) { SlackGrows(l, times, t, i); }
    var k :| 0 <= k < |times| && bucket.tokens == Slack(l, times, k, last);
    SlackGrows(l, times, t, k);
    assert left == Slack(l, all, k, t) || left == Slack(l, all, |times|, t);
  }

  lemma PrefixAdmitted(l: ValidLimits, times: seq<int>, n: nat)
    requires n <= |times| && AllAdmitted(l, times)
    ensures AllAdmitted(l, times[..n])
  {
    forall k | 0 <= k < n ensures DecisionAt(l, times[..n], k).allowed {
      assert times[..n][..k] == times[..k] && DecisionAt(l, times, k).allowed;
    }
  }

  lemma SlackIsFit(l: ValidLimits, times: seq<int>, i: nat)
    requires i < |times| && NonDecreasing(times)
    ensures Slack(l, times, i, times[|times| - 1]) >= 0.0 <==> Fits(l, times, i, |times| - 1)
  {
  }

  /** After an admitted run one more request is admitted exactly when every run that ends
      with it fits. */
  lemma NextAdmitted(l: ValidLimits, times: seq<int>, t: int)
    requires NonDecreasing(times + [t]) && AllAdmitted(l, times)
    ensures Script(l, After(l, times), t).1.allowed
            <==> forall i :: 0 <= i <= |times| ==> Fits(l, times + [t], i, |times|)
  {
    hide Refill, Slack, Fits;
    var all := times + [t];
    forall i | 0 <= i <= |times| ensures Slack(l, all, i, t) >= 0.0 <==> Fits(l, all, i, |times|) { SlackIsFit(l, all, i); }
    SlackAtEnd(l, all);
    if times != [] {
      assert NonDecreasing(times) by { assert forall i :: 0 <= i < |times| ==> all[i] == times[i]; }
      OrderedLeaveLeastSlack(l, times);
      LeastSlackStep(l, times, t, After(l, times).value);
      assert Fits(l, all, |times|, |times|) <==> l.capacity >= 1.0;
    }
  }

  /** From a full bucket, a sequence of requests in order of time is admitted in full if and
      only if every contiguous run of them fits. */
  lemma {:induction false} OrderedIffEnvelope(l: ValidLimits, times: seq<int>)
    requires NonDecreasing(times)
    ensures AllAdmitted(l, times) <==> Envelope(l, times)
  {
    if times != [] {
      var before, t := times[..|times| - 1], times[|times| - 1];
      assert times == before + [t];
      OrderedIffEnvelope(l, before);
      EnvelopeOfPrefix(l, before, t);
      if AllAdmitted(l, times) {
        PrefixAdmitted(l, times, |before|);
        NextAdmitted(l, before, t);
        assert DecisionAt(l, times, |before|).allowed;
      }
      if Envelope(l, times) {
        NextAdmitted(l, before, t);
        AdmittedAppend(l, before, t);
      }
    }
  }

  lemma EnvelopeOfPrefix(l: Limits, times: seq<int>, t: int)
    ensures Envelope(l, times + [t])
            <==> Envelope(l, times) && forall i :: 0 <= i <= |times| ==> Fits(l, times + [t], i, |times|)
  {
    var all := times + [t];
    assert forall i, j :: 0 <= i <= j < |times| ==> (Fits(l, all, i, j) <==> Fits(l, times, i, j));
  }

  lemma AdmittedAppend(l: ValidLimits, times: seq<int>, t: int)
    requires AllAdmitted(l, times) && Script(l, After(l, times), t).1.allowed
    ensures AllAdmitted(l, times + [t])
  {
    var all := times + [t];
    forall k | 0 <= k < |all| ensures DecisionAt(l, all, k).allowed {
      if k < |times| {
        assert all[..k] == times[..k] && DecisionAt(l, times, k).allowed;
      } else {
        assert all[..k] == times;
      }
    }
  }

  // ----- mixed runs -----

  /** The times of the admitted requests of a run. */
  function Admitted(l: ValidLimits, times: seq<int>): seq<int> {
    if times == [] then []
    else
      var before := times[..|times| - 1];
      if DecisionAt(l, times, |before|).allowed then Admitted(l, before) + [times[|before|]] else Admitted(l, before)
  }

  /** What a denial leaves: the tokens of that moment, refilling from there. */
  lemma DeniedAvailable(l: ValidLimits, bucket: Option<Bucket>, now: int, later: int)
    requires !Script(l, bucket, now).1.allowed
    ensures Available(l, Some(Script(l, bucket, now).0), later)
            == Min(l.capacity, Available(l, bucket, now) + Refill(l, now, later))
  {
  }

  lemma DeniedInOrder(l: ValidLimits, bucket: Option<Bucket>, now: int, later: int)
    requires bucket.Some? ==> bucket.value.lastRefill <= now
    requires now <= later && !Script(l, bucket, now).1.allowed
    ensures Available(l, Some(Script(l, bucket, now).0), later) == Available(l, bucket, later)
  {
    DeniedAvailable(l, bucket, now, later);
    RefillPositive(l, now, later);
    if bucket.Some? { RefillAdds(l, bucket.value.lastRefill, now, later); }
  }

  lemma RefillPositive(l: ValidLimits, since: int, now: int)
    ensures Refill(l, since, now) >= 0.0
    ensures since < now ==> Refill(l, since, now) > 0.0
  {
    if since < now { ProductPositive((now - since) as real / 1000.0, l.refillRate); }
  }

  lemma ProductPositive(a: real, b: real)
    requires a > 0.0 && b > 0.0
    ensures a * b > 0.0
  {
  }

  /** A denied request changes nothing that any later request can see, exactly when its
      timestamp is not before the bucket's last one, or the bucket was full.  Otherwise it moves
      the last refill back. */
  lemma DeniedLeavesNoTrace(l: ValidLimits, bucket: Option<Bucket>, now: int)
    requires !Script(l, bucket, now).1.allowed
    ensures (forall later | now <= later ::
               Available(l, Some(Script(l, bucket, now).0), later) == Available(l, bucket, later))
            <==> bucket.None? || bucket.value.lastRefill <= now || bucket.value.tokens >= l.capacity
  {
    var denied := Some(Script(l, bucket, now).0);
    if bucket.None? || bucket.value.lastRefill <= now {
      forall later | now <= later ensures Available(l, denied, later) == Available(l, bucket, later) {
        DeniedInOrder(l, bucket, now, later);
      }
    } else if bucket.value.tokens >= l.capacity {
      forall later | now <= later ensures Available(l, denied, later) == Available(l, bucket, later) {
        DeniedAvailable(l, bucket, now, later);
        RefillPositive(l, now, later);
        RefillPositive(l, bucket.value.lastRefill, later);
      }
    } else {
      DeniedAvailable(l, bucket, now, now + 1);
      RefillPositive(l, now, now + 1);
      assert Available(l, denied, now + 1) > Available(l, bucket, now + 1);
    }
  }

  lemma AppendInOrder(times: seq<int>, t: int)
    requires NonDecreasing(times) && forall a <- times :: a <= t
    ensures NonDecreasing(times + [t])
  {
    forall i | 0 <= i < |times| ensures times[i] <= t { assert times[i] in times; }
  }

  lemma {:induction false} AdmittedInOrder(l: ValidLimits, times: seq<int>)
    requires NonDecreasing(times)
    ensures NonDecreasing(Admitted(l, times))
    ensures forall t <- Admitted(l, times) :: t in times
  {
    hide DecisionAt;
    if times != [] {
      var before, t := times[..|times| - 1], times[|times| - 1];
      assert times == before + [t];
      AdmittedInOrder(l, before);
      assert forall a <- before :: a <= t;
      AppendInOrder(Admitted(l, before), t);
    }
  }

  lemma LastRefillIsLast(l: ValidLimits, times: seq<int>)
    ensures times == [] <==> After(l, times).None?
    ensures times != [] ==> After(l, times).value.lastRefill == times[|times| - 1]
  {
  }

  /** A mixed run leaves the bucket where its admitted requests alone would have left it. */
  lemma {:induction false} OrderedOnlyAdmittedCount(l: ValidLimits, times: seq<int>, now: int)
    requires NonDecreasing(times + [now])
    ensures AllAdmitted(l, Admitted(l, times))
    ensures Available(l, After(l, times), now) == Available(l, After(l, Admitted(l, times)), now)
  {
    hide Available, Script;
    if times != [] {
      hide AllAdmitted;
      var before, t := times[..|times| - 1], times[|times| - 1];
      OrderOfParts(times, now);
      OrderedOnlyAdmittedCount(l, before, t);
      SameAvailableSameScript(l, After(l, before), After(l, Admitted(l, before)), t);
      if DecisionAt(l, times, |before|).allowed {
        AdmittedAppend(l, Admitted(l, before), t);
        assert (Admitted(l, before) + [t])[..|Admitted(l, before)|] == Admitted(l, before);
      } else {
        OrderedOnlyAdmittedCount(l, before, now);
        LastRefillIsLast(l, before);
        DeniedInOrder(l, After(l, before), t, now);
      }
    }
  }

  lemma SameAvailableSameScript(l: ValidLimits, a: Option<Bucket>, b: Option<Bucket>, now: int)
    requires Available(l, a, now) == Available(l, b, now)
    ensures Script(l, a, now) == Script(l, b, now)
  {
  }

  lemma OrderOfParts(times: seq<int>, now: int)
    requires times != [] && NonDecreasing(times + [now])
    ensures var before, t := times[..|times| - 1], times[|times| - 1];
            && t <= now && before + [t] == times
            && NonDecreasing(before + [t]) && NonDecreasing(before + [now])
            && (before != [] ==> before[|before| - 1] <= t)
  {
    assert forall i :: 0 <= i < |times| ==> (times + [now])[i] == times[i];
    assert (times + [now])[|times|] == now;
  }

  /** In any run the admitted requests satisfy the envelope, and slipping in a request breaks
      it exactly when that request was denied. */
  lemma OrderedDenials(l: ValidLimits, times: seq<int>, k: nat)
    requires NonDecreasing(times) && k < |times|
    ensures Envelope(l, Admitted(l, times))
    ensures !DecisionAt(l, times, k).allowed <==> !Envelope(l, Admitted(l, times[..k]) + [times[k]])
  {
    hide Available, AllAdmitted, Envelope, Script, Fits;
    AdmittedFit(l, times, times[|times| - 1]);
    var before, t := times[..k], times[k];
    var admitted := Admitted(l, before);
    AdmittedFit(l, before, t);
    OrderedOnlyAdmittedCount(l, before, t);
    NextAdmitted(l, admitted, t);
    EnvelopeOfPrefix(l, admitted, t);
    SameAvailableSameScript(l, After(l, before), After(l, admitted), t);
  }

  lemma OrderOfLast(times: seq<int>, now: int)
    requires NonDecreasing(times + [now])
    ensures NonDecreasing(times) && forall t <- times :: t <= now
  {
    forall i, j | 0 <= i < j < |times| ensures times[i] <= times[j] {
      assert (times + [now])[i] == times[i] && (times + [now])[j] == times[j];
    }
    forall i | 0 <= i < |times| ensures times[i] <= now {
      assert (times + [now])[i] == times[i] && (times + [now])[|times|] == now;
    }
  }

  lemma AdmittedFit(l: ValidLimits, times: seq<int>, now: int)
    requires NonDecreasing(times + [now])
    ensures AllAdmitted(l, Admitted(l, times)) && Envelope(l, Admitted(l, times))
    ensures NonDecreasing(Admitted(l, times) + [now])
  {
    hide AllAdmitted, Envelope, Admitted;
    OrderOfLast(times, now);
    OrderedOnlyAdmittedCount(l, times, now);
    AdmittedInOrder(l, times);
    AppendInOrder(Admitted(l, times), now);
    OrderedIffEnvelope(l, Admitted(l, times));
  }

  // ----- any clock -----

  /** The times as the bucket counts them: a step back counts for nothing, and the way forward
      again counts once more. */
  function Ratchet(times: seq<int>): (r: seq<int>)
    ensures |r| == |times|
  {
    if times == [] then []
    else
      var before := times[..|times| - 1];
      var so := Ratchet(before);
      so + [if before == [] then times[0] else so[|before| - 1] + MaxInt(0, times[|before|] - before[|before| - 1])]
  }

  /** The reading of that clock when the real one shows `now` after the run. */
  function Reading(times: seq<int>, now: int): int {
    if times == [] then now else Ratchet(times)[|times| - 1] + MaxInt(0, now - times[|times| - 1])
  }

  lemma RatchetAppend(times: seq<int>, t: int)
    ensures Ratchet(times + [t]) == Ratchet(times) + [Reading(times, t)]
  {
    assert (times + [t])[..|times|] == times;
  }

  lemma {:induction false} RatchetPrefix(times: seq<int>, k: nat)
    requires k <= |times|
    ensures Ratchet(times)[..k] == Ratchet(times[..k])
    ensures k < |times| ==> Ratchet(times)[k] == Reading(times[..k], times[k])
  {
    if k == |times| {
      assert times[..k] == times;
    } else {
      var before := times[..|times| - 1];
      assert times == before + [times[|times| - 1]];
      RatchetAppend(before, times[|times| - 1]);
      if k < |before| { assert times[..k] == before[..k]; }
      RatchetPrefix(before, k);
    }
  }

  lemma {:induction false} RatchetOrdered(times: seq<int>)
    ensures NonDecreasing(Ratchet(times))
  {
    if times != [] {
      var before := times[..|times| - 1];
      RatchetOrdered(before);
      assert Ratchet(times)[..|before|] == Ratchet(before);
    }
  }

  /** The two clocks agree exactly when the real one never runs backwards. */
  lemma {:induction false} RatchetIsClock(times: seq<int>)
    ensures Ratchet(times) == times <==> NonDecreasing(times)
  {
    RatchetOrdered(times);
    if times != [] && NonDecreasing(times) {
      var before := times[..|times| - 1];
      RatchetIsClock(before);
      assert times == before + [times[|times| - 1]];
    }
  }

  lemma RefillShift(l: Limits, since: int, now: int, shown: int)
    ensures Refill(l, since, now) == Refill(l, shown, shown + MaxInt(0, now - since))
  {
  }

  /** The bucket cannot tell the two clocks apart. */
  lemma {:induction false} RatchetSeesTheSame(l: ValidLimits, times: seq<int>, now: int)
    ensures Available(l, After(l, times), now) == Available(l, After(l, Ratchet(times)), Reading(times, now))
    ensures times != [] ==>
              After(l, Ratchet(times)) == Some(Bucket(After(l, times).value.tokens, Ratchet(times)[|times| - 1]))
  {
    if times != [] {
      var before, t := times[..|times| - 1], times[|times| - 1];
      assert times == before + [t];
      RatchetAppend(before, t);
      RatchetSeesTheSame(l, before, t);
      SameTokens(l, After(l, before), t, After(l, Ratchet(before)), Reading(before, t));
      assert Ratchet(times)[..|before|] == Ratchet(before);
      RefillShift(l, t, now, Ratchet(times)[|before|]);
    }
  }

  lemma SameTokens(l: ValidLimits, a: Option<Bucket>, now: int, b: Option<Bucket>, shown: int)
    requires Available(l, a, now) == Available(l, b, shown)
    ensures Script(l, a, now).1 == Script(l, b, shown).1
    ensures Script(l, b, shown).0 == Script(l, a, now).0.(lastRefill := shown)
  {
  }

  lemma DecisionsAgree(l: ValidLimits, times: seq<int>, k: nat)
    requires k < |times|
    ensures DecisionAt(l, times, k) == DecisionAt(l, Ratchet(times), k)
  {
    RatchetPrefix(times, k);
    RatchetSeesTheSame(l, times[..k], times[k]);
    SameTokens(l, After(l, times[..k]), times[k], After(l, Ratchet(times[..k])), Reading(times[..k], times[k]));
  }

  /** The admission envelope: from a full bucket, any sequence of requests is admitted in full
      if and only if every contiguous run of them fits what the bucket can hold and refill over
      the run's span on the ratcheted clock. */
  lemma AdmittedIffEnvelope(l: ValidLimits, times: seq<int>)
    ensures AllAdmitted(l, times) <==> Envelope(l, Ratchet(times))
  {
    hide DecisionAt;
    forall k | 0 <= k < |times| ensures DecisionAt(l, times, k) == DecisionAt(l, Ratchet(times), k) {
      DecisionsAgree(l, times, k);
    }
    RatchetOrdered(times);
    OrderedIffEnvelope(l, Ratchet(times));
  }

  /** What an admitted run leaves is the smallest slack of all its suffixes. */
  lemma AdmittedLeaveLeastSlack(l: ValidLimits, times: seq<int>)
    requires times != [] && AllAdmitted(l, times)
    ensures IsLeastSlack(l, Ratchet(times), Bucket(After(l, times).value.tokens, Ratchet(times)[|times| - 1]))
  {
    hide DecisionAt, IsLeastSlack;
    forall k | 0 <= k < |times| ensures DecisionAt(l, Ratchet(times), k).allowed {
      DecisionsAgree(l, times, k);
      assert DecisionAt(l, times, k).allowed;
    }
    RatchetOrdered(times);
    OrderedLeaveLeastSlack(l, Ratchet(times));
    RatchetSeesTheSame(l, times, 0);
  }

  /** The ratcheted times of the requests that the run admitted. */
  function Granted(l: ValidLimits, times: seq<int>): seq<int> {
    if times == [] then []
    else
      var before, t := times[..|times| - 1], times[|times| - 1];
      if DecisionAt(l, times, |before|).allowed then Granted(l, before) + [Reading(before, t)] else Granted(l, before)
  }

  lemma {:induction false} GrantedAreAdmitted(l: ValidLimits, times: seq<int>)
    ensures Granted(l, times) == Admitted(l, Ratchet(times))
  {
    hide DecisionAt;
    if times != [] {
      var before, t := times[..|times| - 1], times[|times| - 1];
      assert times == before + [t];
      GrantedAreAdmitted(l, before);
      RatchetAppend(before, t);
      DecisionsAgree(l, times, |before|);
      assert Ratchet(times)[..|before|] == Ratchet(before);
    }
  }

  /** A mixed run leaves the bucket where its admitted requests alone would have left it. */
  lemma OnlyAdmittedCount(l: ValidLimits, times: seq<int>, now: int)
    ensures AllAdmitted(l, Granted(l, times))
    ensures Available(l, After(l, times), now) == Available(l, After(l, Granted(l, times)), Reading(times, now))
  {
    hide Available, AllAdmitted;
    GrantedAreAdmitted(l, times);
    RatchetSeesTheSame(l, times, now);
    RatchetAppend(times, now);
    RatchetOrdered(times + [now]);
    OrderedOnlyAdmittedCount(l, Ratchet(times), Reading(times, now));
  }

  /** In any run the admitted requests satisfy the envelope, and slipping in a request breaks
      it exactly when that request was denied. */
  lemma DenialsAreNecessary(l: ValidLimits, times: seq<int>, k: nat)
    requires k < |times|
    ensures Envelope(l, Granted(l, times))
    ensures !DecisionAt(l, times, k).allowed
            <==> !Envelope(l, Granted(l, times[..k]) + [Reading(times[..k], times[k])])
  {
    hide DecisionAt, Envelope;
    GrantedAreAdmitted(l, times);
    GrantedAreAdmitted(l, times[..k]);
    RatchetPrefix(times, k);
    DecisionsAgree(l, times, k);
    RatchetOrdered(times);
    OrderedDenials(l, Ratchet(times), k);
  }

  /** How far the clock ran backwards in all between requests i and j. */
  function Backward(times: seq<int>, i: nat, j: nat): nat
    requires i <= j < |times|
  {
    if i == j then 0 else Backward(times, i, j - 1) + MaxInt(0, times[j - 1] - times[j])
  }

  lemma {:induction false} DriftIsBackward(times: seq<int>, i: nat, j: nat)
    requires i <= j < |times|
    ensures Ratchet(times)[j] - Ratchet(times)[i] == times[j] - times[i] + Backward(times, i, j)
  {
    if i < j {
      DriftIsBackward(times, i, j - 1);
      RatchetPrefix(times, j);
      RatchetPrefix(times[..j], j - 1);
      assert times[..j][j - 1] == times[j - 1];
    }
  }

  /** Requests i..j fit, given back what the bucket refilled twice. */
  predicate FitsWithDrift(l: Limits, times: seq<int>, i: nat, j: nat)
    requires i <= j < |times|
  {
    FitsSpan(l, j - i + 1, times[j] - times[i] + Backward(times, i, j))
  }

  lemma DriftFits(l: Limits, times: seq<int>, i: nat, j: nat)
    requires i <= j < |times|
    ensures Fits(l, Ratchet(times), i, j) <==> FitsWithDrift(l, times, i, j)
  {
    hide FitsSpan, Ratchet, Backward;
    DriftIsBackward(times, i, j);
  }

  /** What a backward clock costs, exactly: each run may overspend what refills in the time by
      which the clock ran backwards within it, and not more. */
  lemma OverspendIsDrift(l: ValidLimits, times: seq<int>)
    ensures AllAdmitted(l, times) <==> forall i, j :: 0 <= i <= j < |times| ==> FitsWithDrift(l, times, i, j)
  {
    hide AllAdmitted, Fits, FitsWithDrift, Ratchet;
    AdmittedIffEnvelope(l, times);
    forall i, j | 0 <= i <= j < |times| ensures Fits(l, Ratchet(times), i, j) <==> FitsWithDrift(l, times, i, j) {
      DriftFits(l, times, i, j);
    }
  }

  // ----- eviction -----

  /** The bucket Redis still has at `now` when it was last written by a request. */
  function Evicted(l: ValidLimits, bucket: Option<Bucket>, now: int): Option<Bucket> {
    if bucket.Some? && now >= bucket.value.lastRefill + 1000 * TtlSeconds(l) then None else bucket
  }

  /** `After`, with Redis dropping the bucket whenever its TTL has run out. */
  function AfterEvicting(l: ValidLimits, times: seq<int>): Option<Bucket> {
    if times == [] then None
    else
      var now := times[|times| - 1];
      Some(Script(l, Evicted(l, AfterEvicting(l, times[..|times| - 1]), now), now).0)
  }

  lemma QuotientOrder(c: real, q: real, y: real, r: real)
    requires r > 0.0 && q * r == c
    ensures c <= y * r <==> q <= y
    ensures c > 0.0 <==> q > 0.0
  {
  }

  lemma QuotientOf(c: real, r: real) returns (q: real)
    requires r > 0.0
    ensures q == c / r && q * r == c
  {
    q := c / r;
  }

  lemma TtlRefills(l: ValidLimits)
    ensures l.capacity <= 86_400.0 * l.refillRate ==> l.capacity <= TtlSeconds(l) as real * l.refillRate
    ensures l.capacity > 86_400.0 * l.refillRate ==> TtlSeconds(l) == MAX_TTL_SECONDS
    ensures TtlSeconds(l) > 0
  {
    var q := QuotientOf(l.capacity, l.refillRate);
    QuotientOrder(l.capacity, q, 86_400.0, l.refillRate);
    TtlBounds(l, q);
    QuotientOrder(l.capacity, q, TtlSeconds(l) as real, l.refillRate);
  }

  /** The TTL is the least number of whole seconds in which an empty bucket fills twice over, but
      at least a minute and at most a day. */
  lemma TtlIs(l: ValidLimits)
    ensures 60 <= TtlSeconds(l) <= 86_400
    ensures TtlSeconds(l) > 60 ==> (TtlSeconds(l) - 1) as real * l.refillRate < 2.0 * l.capacity
    ensures TtlSeconds(l) < 86_400 ==> TtlSeconds(l) as real * l.refillRate >= 2.0 * l.capacity
  {
    var q := QuotientOf(l.capacity, l.refillRate);
    var ttl := TtlSeconds(l);
    assert ttl > 60 ==> (ttl - 1) as real < 2.0 * q;
    assert ttl < 86_400 ==> ttl as real >= 2.0 * q;
    hide TtlSeconds;
    TwiceOrder((ttl - 1) as real, q, l.refillRate, l.capacity);
    TwiceOrder(ttl as real, q, l.refillRate, l.capacity);
  }

  lemma TwiceOrder(a: real, q: real, r: real, c: real)
    requires r > 0.0 && q * r == c
    ensures a * r < 2.0 * c <==> a < 2.0 * q
  {
    var d := 2.0 * q - a;
    assert d * r == 2.0 * c - a * r;
    if d > 0.0 { assert d * r > 0.0; } else { assert (-d) * r >= 0.0; }
  }

  lemma TtlBounds(l: ValidLimits, q: real)
    requires q == l.capacity / l.refillRate > 0.0
    ensures q <= 86_400.0 ==> q <= TtlSeconds(l) as real
    ensures q > 86_400.0 ==> TtlSeconds(l) == MAX_TTL_SECONDS
    ensures TtlSeconds(l) > 0
  {
  }

  lemma RefillAtLeast(l: ValidLimits, since: int, now: int, seconds: int)
    requires seconds > 0 && now >= since + 1000 * seconds
    ensures Refill(l, since, now) >= seconds as real * l.refillRate
  {
  }

  lemma EvictedIsFull(l: ValidLimits, b: Bucket, now: int)
    requires l.capacity <= 86_400.0 * l.refillRate
    requires 0.0 <= b.tokens && now >= b.lastRefill + 1000 * TtlSeconds(l)
    ensures Available(l, Some(b), now) == l.capacity
  {
    hide TtlSeconds, Refill;
    TtlRefills(l);
    RefillAtLeast(l, b.lastRefill, now, TtlSeconds(l));
  }

  lemma EmptyStaysShort(l: ValidLimits)
    requires l.capacity > 86_400.0 * l.refillRate
    ensures Available(l, Some(Bucket(0.0, 0)), 1000 * TtlSeconds(l)) < l.capacity
  {
    TtlRefills(l);
    assert Refill(l, 0, 86_400_000) == 86_400.0 * l.refillRate;
  }

  /** Exactly when every bucket is full again by the time its TTL runs out. */
  lemma FullWhenEvicted(l: ValidLimits)
    ensures (forall b: Bucket, now | 0.0 <= b.tokens && now >= b.lastRefill + 1000 * TtlSeconds(l) ::
               Available(l, Some(b), now) == l.capacity)
            <==> l.capacity <= 86_400.0 * l.refillRate
  {
    hide Available, TtlSeconds;
    if l.capacity <= 86_400.0 * l.refillRate {
      forall b: Bucket, now | 0.0 <= b.tokens && now >= b.lastRefill + 1000 * TtlSeconds(l)
        ensures Available(l, Some(b), now) == l.capacity { EvictedIsFull(l, b, now); }
    } else {
      EmptyStaysShort(l);
    }
  }

  lemma {:induction false} TokensNonNegative(l: ValidLimits, times: seq<int>)
    requires times != []
    ensures 0.0 <= After(l, times).value.tokens
  {
    var before, t := times[..|times| - 1], times[|times| - 1];
    if before != [] {
      TokensNonNegative(l, before);
      RefillPositive(l, After(l, before).value.lastRefill, t);
    }
  }

  lemma FullBucket(l: Limits, now: int)
    ensures Available(l, None, now) == l.capacity
  {
  }

  /** The decision on request k when Redis evicts. */
  function EvictingDecisionAt(l: ValidLimits, times: seq<int>, k: nat): Decision
    requires k < |times|
  {
    Script(l, Evicted(l, AfterEvicting(l, times[..k]), times[k]), times[k]).1
  }

  /** Whether anybody can tell from the decisions that Redis evicts. */
  ghost predicate DecidesAlike(l: ValidLimits, times: seq<int>) {
    forall k :: 0 <= k < |times| ==> EvictingDecisionAt(l, times, k) == DecisionAt(l, times, k)
  }

  /** The bucket that Redis drops and the one that lives for ever are equal after every run. */
  lemma {:induction false} EvictedRunsAgree(l: ValidLimits, times: seq<int>)
    requires l.capacity <= 86_400.0 * l.refillRate
    ensures AfterEvicting(l, times) == After(l, times)
    ensures forall now :: Script(l, Evicted(l, AfterEvicting(l, times), now), now) == Script(l, After(l, times), now)
  {
    hide Available, TtlSeconds, Script;
    if times != [] {
      EvictedRunsAgree(l, times[..|times| - 1]);
      TokensNonNegative(l, times);
    }
    forall now ensures Script(l, Evicted(l, After(l, times), now), now) == Script(l, After(l, times), now) {
      if Evicted(l, After(l, times), now) != After(l, times) { EvictedIsFull(l, After(l, times).value, now); }
      assert Available(l, None, now) == l.capacity by { FullBucket(l, now); }
      SameAvailableSameScript(l, Evicted(l, After(l, times), now), After(l, times), now);
    }
  }

  /** Eviction is unobservable: every decision of every run is the same without it. */
  lemma EvictionUnobservable(l: ValidLimits, times: seq<int>)
    requires l.capacity <= 86_400.0 * l.refillRate
    ensures AfterEvicting(l, times) == After(l, times) && DecidesAlike(l, times)
  {
    hide Script, Evicted;
    EvictedRunsAgree(l, times);
    forall k | 0 <= k < |times| ensures EvictingDecisionAt(l, times, k) == DecisionAt(l, times, k) {
      EvictedRunsAgree(l, times[..k]);
    }
  }

  function Repeat(t: int, n: nat): (r: seq<int>)
    ensures |r| == n && forall i | 0 <= i < n :: r[i] == t
  {
    seq(n, _ => t)
  }

  /** From a full bucket of n tokens, n requests at one instant are admitted. */
  lemma {:induction false} EvictingBurst(l: ValidLimits, before: seq<int>, t: int, n: nat, j: nat)
    requires l.capacity == n as real && j <= n
    requires Available(l, Evicted(l, AfterEvicting(l, before), t), t) == l.capacity
    ensures j > 0 ==> AfterEvicting(l, before + Repeat(t, j)) == Some(Bucket((n - j) as real, t))
    ensures j < n ==> Script(l, Evicted(l, AfterEvicting(l, before + Repeat(t, j)), t), t)
                      == (Bucket((n - j - 1) as real, t), Decision(true, n - j - 1, 0))
  {
    hide Available, Script, Evicted, AfterEvicting, TtlSeconds, Repeat;
    RepeatMore(before, t, j);
    if j > 0 {
      EvictingBurst(l, before, t, n, j - 1);
      AfterEvictingAppend(l, before + Repeat(t, j - 1), t);
      JustWritten(l, n - j, t);
    }
    if j < n { FullTake(l, Evicted(l, AfterEvicting(l, before + Repeat(t, j)), t), t, n - j); }
  }

  lemma RepeatMore(before: seq<int>, t: int, j: nat)
    ensures before + Repeat(t, j) == if j == 0 then before else before + Repeat(t, j - 1) + [t]
  {
  }

  lemma AfterEvictingAppend(l: ValidLimits, before: seq<int>, t: int)
    ensures AfterEvicting(l, before + [t]) == Some(Script(l, Evicted(l, AfterEvicting(l, before), t), t).0)
  {
    hide Script, Evicted;
    assert (before + [t])[..|before|] == before;
  }

  lemma JustWritten(l: ValidLimits, m: nat, t: int)
    requires m as real <= l.capacity
    ensures var b := Some(Bucket(m as real, t)); Available(l, Evicted(l, b, t), t) == m as real
  {
    TtlRefills(l);
    hide TtlSeconds;
  }

  lemma FullTake(l: ValidLimits, bucket: Option<Bucket>, t: int, m: nat)
    requires m > 0 && Available(l, bucket, t) == m as real
    ensures Script(l, bucket, t) == (Bucket((m - 1) as real, t), Decision(true, m - 1, 0))
  {
    assert (m - 1) as real == m as real - 1.0;
    assert (m as real - 1.0).Floor == m - 1;
  }

  lemma StartsFull(l: ValidLimits)
    ensures Available(l, Evicted(l, AfterEvicting(l, []), 0), 0) == l.capacity
  {
  }

  lemma LapsedIsFull(l: ValidLimits, bucket: Option<Bucket>)
    requires bucket.Some? ==> bucket.value.lastRefill == 0
    ensures Available(l, Evicted(l, bucket, 1000 * TtlSeconds(l)), 1000 * TtlSeconds(l)) == l.capacity
  {
    hide TtlSeconds;
  }

  /** n requests at 0 and n more when the TTL runs out: eviction admits them all. */
  lemma EvictingTwoBursts(l: ValidLimits, n: nat, k: nat)
    requires n > 0 && l.capacity == n as real && k < 2 * n
    ensures EvictingDecisionAt(l, Repeat(0, n) + Repeat(1000 * TtlSeconds(l), n), k).allowed
  {
    hide TtlSeconds, Available, Script, AfterEvicting, Evicted;
    var late := 1000 * TtlSeconds(l);
    StartsFull(l);
    var times := Repeat(0, n) + Repeat(late, n);
    if k < n {
      assert times[..k] == [] + Repeat(0, k);
      EvictingBurst(l, [], 0, n, k);
    } else {
      assert [] + Repeat(0, n) == Repeat(0, n);
      EvictingBurst(l, [], 0, n, n);
      LapsedIsFull(l, AfterEvicting(l, Repeat(0, n)));
      assert times[..k] == Repeat(0, n) + Repeat(late, k - n);
      EvictingBurst(l, Repeat(0, n), late, n, k - n);
    }
  }

  /** For whole capacities the bound is exact: eviction changes no decision of any run if and
      only if the bucket refills within the longest TTL. */
  lemma EvictionUnobservableIff(l: ValidLimits, n: nat)
    requires l.capacity == n as real
    ensures (forall times :: DecidesAlike(l, times)) <==> l.capacity <= 86_400.0 * l.refillRate
  {
    hide DecidesAlike;
    if l.capacity <= 86_400.0 * l.refillRate {
      forall times ensures DecidesAlike(l, times) { EvictionUnobservable(l, times); }
    } else {
      EvictionShows(l, n);
    }
  }

  lemma EvictionShows(l: ValidLimits, n: nat)
    requires l.capacity == n as real > 86_400.0 * l.refillRate
    ensures !DecidesAlike(l, Repeat(0, n) + Repeat(1000 * TtlSeconds(l), n))
  {
    TtlRefills(l);
    hide TtlSeconds, EvictingDecisionAt, DecisionAt, Fits;
    var times := Repeat(0, n) + Repeat(1000 * TtlSeconds(l), n);
    TwoBurstsDoNotFit(l, times, n);
    RatchetIsClock(times);
    AdmittedIffEnvelope(l, times);
    var k :| 0 <= k < |times| && !DecisionAt(l, times, k).allowed;
    EvictingTwoBursts(l, n, k);
  }

  lemma TwoBurstsDoNotFit(l: ValidLimits, times: seq<int>, n: nat)
    requires l.capacity == n as real > 86_400.0 * l.refillRate && n > 0
    requires |times| == 2 * n && times[0] == 0 && times[2 * n - 1] == 86_400_000
    ensures !Fits(l, times, 0, 2 * n - 1)
  {
    assert 86_400_000 as real / 1000.0 == 86_400.0;
  }

  /** A bucket that can never hold a whole token denies everything, evicted or not. */
  lemma {:induction false} SmallBucketsStayFull(l: ValidLimits, times: seq<int>)
    requires l.capacity < 1.0
    ensures DecidesAlike(l, times)
    ensures times != [] ==> AfterEvicting(l, times) == After(l, times) == Some(Bucket(l.capacity, times[|times| - 1]))
  {
    hide TtlSeconds, Ceil;
    if times != [] {
      var before, t := times[..|times| - 1], times[|times| - 1];
      SmallBucketsStayFull(l, before);
      if before != [] { RefillPositive(l, before[|before| - 1], t); }
      forall k | 0 <= k < |times| ensures EvictingDecisionAt(l, times, k) == DecisionAt(l, times, k) {
        if k < |before| {
          assert times[..k] == before[..k];
          assert EvictingDecisionAt(l, before, k) == DecisionAt(l, before, k);
        }
      }
    }
  }

  /** A run whose last request is denied, and admitted when the bucket was evicted. */
  lemma EvictionAdmitsMore()
    ensures var l: ValidLimits := Limits(1.0, 0.00001);
            && !DecisionAt(l, [0, 86_400_000], 1).allowed
            && EvictingDecisionAt(l, [0, 86_400_000], 1).allowed
  {
    var l: ValidLimits := Limits(1.0, 0.00001);
    TtlRefills(l);
    assert [0, 86_400_000][..1] == [0] && [0][..0] == [];
  }

  // ----- the retry hint -----

  /** After a denial, a lone retry after k whole seconds is admitted exactly when the bucket
      can hold a token at all and k is at least the advertised `retryAfter`. */
  lemma RetryAfterIsLeast(l: ValidLimits, bucket: Option<Bucket>, now: int, k: nat)
    requires !Script(l, bucket, now).1.allowed
    ensures var (denied, d) := Script(l, bucket, now);
            Script(l, Some(denied), now + 1000 * k).1.allowed <==> l.capacity >= 1.0 && k >= d.retryAfter
  {
    var (denied, d) := Script(l, bucket, now);
    var wanted := 1.0 - denied.tokens;
    assert Refill(l, now, now + 1000 * k) == k as real * l.refillRate by { WholeSeconds(l, now, k); }
    hide Refill;
    CeilIsLeast(wanted, l.refillRate, k);
  }

  lemma WholeSeconds(l: ValidLimits, now: int, k: nat)
    ensures Refill(l, now, now + 1000 * k) == k as real * l.refillRate
  {
  }

  lemma CeilIsLeast(wanted: real, rate: real, k: nat)
    requires wanted > 0.0 && rate > 0.0
    ensures k as real * rate >= wanted <==> k >= MaxInt(1, Ceil(wanted / rate))
  {
    var need := QuotientOf(wanted, rate);
    QuotientOrder(wanted, need, k as real, rate);
  }

  // ----- the remaining count -----

  /** k more requests at the same instant are all admitted. */
  predicate Burst(l: ValidLimits, bucket: Bucket, now: int, k: nat)
    decreases k
  {
    k == 0 || (Script(l, Some(bucket), now).1.allowed && Burst(l, Script(l, Some(bucket), now).0, now, k - 1))
  }

  lemma {:induction false} BurstNeedsTokens(l: ValidLimits, bucket: Bucket, now: int, k: nat)
    requires bucket.tokens <= l.capacity && bucket.lastRefill == now
    ensures Burst(l, bucket, now, k) <==> k == 0 || k as real <= bucket.tokens
    decreases k
  {
    hide Script;
    if k > 0 {
      SpendOne(l, bucket, now);
      if bucket.tokens >= 1.0 { BurstNeedsTokens(l, Script(l, Some(bucket), now).0, now, k - 1); }
    }
  }

  lemma SpendOne(l: ValidLimits, bucket: Bucket, now: int)
    requires bucket.tokens <= l.capacity && bucket.lastRefill == now
    ensures var (left, d) := Script(l, Some(bucket), now);
            && (d.allowed <==> bucket.tokens >= 1.0)
            && (d.allowed ==> left == Bucket(bucket.tokens - 1.0, now))
  {
  }

  /** `remaining` is exactly the number of requests that an immediate burst can still make. */
  lemma RemainingIsBurst(l: ValidLimits, bucket: Option<Bucket>, now: int, k: nat)
    ensures var (left, d) := Script(l, bucket, now); Burst(l, left, now, k) <==> k <= d.remaining
  {
    hide Burst;
    BurstNeedsTokens(l, Script(l, bucket, now).0, now, k);
  }

  // ----- a clock that runs backwards -----

  lemma SmallBucketsAdmitNothing(l: ValidLimits, times: seq<int>)
    requires l.capacity < 1.0
    ensures Admitted(l, times) == []
  {
  }

  /** Requests at T and 0 in turn, k times. */
  function Swing(top: int, k: nat): (times: seq<int>)
    ensures |times| == 2 * k && (k > 0 ==> times[2 * k - 1] == 0)
  {
    if k == 0 then [] else Swing(top, k - 1) + [top, 0]
  }

  lemma {:induction false} SwingAdmits(l: ValidLimits, top: int, k: nat)
    requires l.capacity >= 1.0 && top > 0 && top as real / 1000.0 * l.refillRate >= 1.0
    ensures var a := Admitted(l, Swing(top, k) + [top]); |a| > k && a[0] == top == a[|a| - 1]
  {
    hide Script, Available, After;
    var run := Swing(top, k) + [top];
    assert run[..2 * k] == Swing(top, k);
    TopIsAdmitted(l, top, k);
    if k > 0 {
      SwingAdmits(l, top, k - 1);
      var before := Swing(top, k - 1) + [top];
      assert Swing(top, k) == before + [0] && Swing(top, k)[..|before|] == before;
    }
  }

  lemma TopIsAdmitted(l: ValidLimits, top: int, k: nat)
    requires l.capacity >= 1.0 && top > 0 && top as real / 1000.0 * l.refillRate >= 1.0
    ensures Script(l, After(l, Swing(top, k)), top).1.allowed
  {
    hide After, Swing, Script;
    var run := Swing(top, k);
    LastRefillIsLast(l, run);
    if k > 0 { TokensNonNegative(l, run); }
    AboveOneIsAdmitted(l, After(l, run), top);
  }

  lemma AboveOneIsAdmitted(l: ValidLimits, bucket: Option<Bucket>, top: int)
    requires l.capacity >= 1.0 && top > 0 && top as real / 1000.0 * l.refillRate >= 1.0
    requires bucket.Some? ==> bucket.value.tokens >= 0.0 && bucket.value.lastRefill == 0
    ensures Script(l, bucket, top).1.allowed
  {
  }

  lemma LongEnough(l: ValidLimits) returns (top: int)
    ensures top > 0 && top as real / 1000.0 * l.refillRate >= 1.0
  {
    var q := QuotientOf(1000.0, l.refillRate);
    QuotientOrder(1000.0, q, 0.0, l.refillRate);
    top := Ceil(q);
    QuotientOrder(1000.0, q, top as real, l.refillRate);
    assert top as real / 1000.0 * l.refillRate == top as real * l.refillRate / 1000.0;
  }

  /** On the clock's own times the envelope is not kept: for every bucket that can hold a token
      at all some run with backward steps admits more than it allows, because a denied or an
      admitted request with an earlier timestamp moves the last refill back. */
  lemma BackwardClockOverspends(l: ValidLimits)
    ensures (exists times :: !Envelope(l, Admitted(l, times))) <==> l.capacity >= 1.0
  {
    hide Envelope;
    if l.capacity >= 1.0 {
      var top := LongEnough(l);
      var k := l.capacity.Floor;
      SwingAdmits(l, top, k);
      TooManyAtOnce(l, Admitted(l, Swing(top, k) + [top]));
    } else {
      forall times ensures Envelope(l, Admitted(l, times)) {
        SmallBucketsAdmitNothing(l, times);
        NothingFits(l);
      }
    }
  }

  lemma TooManyAtOnce(l: ValidLimits, a: seq<int>)
    requires a != [] && |a| as real > l.capacity && a[0] == a[|a| - 1]
    ensures !Envelope(l, a)
  {
    assert !Fits(l, a, 0, |a| - 1);
  }

  lemma NothingFits(l: Limits)
    ensures Envelope(l, [])
  {
  }
}
