/** Exactly which calls a token bucket allows, told from the calls alone: a call is denied only when some stretch of
    calls before it has used up what capacity and elapsed time provide. */
module RateExact {
  import opened RetryQueue
  import opened RateLimit

  /** What is earned between two instants. */
  type Earning = (int, int) -> real

  function Earned(rate: real): Earning {
    (from: int, to: int) => rate * ((to - from) as real / 1_000_000_000.0)
  }

  /** One more call at times[n] is covered by the capacity and what was earned since call j, less the calls
      allowed from j on. */
  ghost predicate Covered(capacity: real, earn: Earning, times: seq<int>, allowed: seq<bool>, j: nat, n: nat)
    requires j <= n < |times| == |allowed|
  {
    Count(allowed[j..n]) as real + 1.0 <= capacity + earn(times[j], times[n])
  }

  ghost predicate CoveredThroughout(capacity: real, earn: Earning, times: seq<int>, allowed: seq<bool>, n: nat)
    requires n < |times| == |allowed|
  {
    forall j: nat | j < n :: Covered(capacity, earn, times, allowed, j, n)
  }

  lemma SliceTail(s: seq<bool>, j: nat, n: nat)
    requires j <= n < |s|
    ensures s[1..][j..n] == s[j + 1..n + 1]
  {
    var a, b := s[1..][j..n], s[j + 1..n + 1];
    assert |a| == |b| && forall x | 0 <= x < n - j :: a[x] == s[j + 1 + x] == b[x];
  }

  /** Shifting both lists by the first call. */
  lemma CoveredTail(capacity: real, earn: Earning, times: seq<int>, allowed: seq<bool>, n: nat)
    requires n + 1 < |times| == |allowed|
    ensures CoveredThroughout(capacity, earn, times, allowed, n + 1)
       <==> Covered(capacity, earn, times, allowed, 0, n + 1) && CoveredThroughout(capacity, earn, times[1..], allowed[1..], n)
  {
    var laterTimes, later := times[1..], allowed[1..];
    forall j: nat | j < n
      ensures Covered(capacity, earn, laterTimes, later, j, n) <==> Covered(capacity, earn, times, allowed, j + 1, n + 1)
    {
      SliceTail(allowed, j, n);
    }
    var m := n + 1;
    if CoveredThroughout(capacity, earn, laterTimes, later, n) && Covered(capacity, earn, times, allowed, 0, m) {
      forall j: nat | j < m
        ensures Covered(capacity, earn, times, allowed, j, m)
      {
        assert j > 0 ==> Covered(capacity, earn, laterTimes, later, j - 1, n);
      }
    }
  }

  lemma CountSplit(allowed: seq<bool>, n: nat)
    requires n < |allowed|
    ensures Count(allowed[..n + 1]) == Count(allowed[1..][..n]) + if allowed[0] then 1 else 0
    ensures allowed[0..n + 1] == allowed[..n + 1]
  {
    assert allowed[..n + 1][1..] == allowed[1..][..n];
  }

  /** Call n is allowed exactly when the tokens held at first, and the capacity at each call since, cover it. */
  ghost predicate AllowedAsCovered(capacity: real, earn: Earning, b: Bucket, times: seq<int>, allowed: seq<bool>, n: nat)
    requires n < |times| == |allowed|
  {
    allowed[n] <==>
      && capacity >= 1.0
      && Count(allowed[..n]) as real + 1.0 <= b.tokens + earn(b.last, times[n])
      && CoveredThroughout(capacity, earn, times, allowed, n)
  }

  /** The first call spends from the tokens and the capacity alike, so what covers the calls after it is what
      both cover. */
  lemma NextCall(capacity: real, earn: Earning, b: Bucket, times: seq<int>, allowed: seq<bool>, n: nat, next: Bucket)
    requires n + 1 < |times| == |allowed| && next.last == times[0]
    requires next.tokens + (if allowed[0] then 1.0 else 0.0) == Min(capacity, b.tokens + earn(b.last, times[0]))
    requires earn(b.last, times[0]) + earn(times[0], times[n + 1]) == earn(b.last, times[n + 1])
    requires AllowedAsCovered(capacity, earn, next, times[1..], allowed[1..], n)
    ensures AllowedAsCovered(capacity, earn, b, times, allowed, n + 1)
  {
    CoveredTail(capacity, earn, times, allowed, n);
    CountSplit(allowed, n);
  }

  lemma FirstCall(capacity: real, rate: real, b: Bucket, now: int)
    requires rate >= 0.0 && b.tokens <= capacity && b.last <= now
    ensures var (next, allowed) := Step(capacity, rate, b, now);
      && (allowed <==> capacity >= 1.0 && b.tokens + Earned(rate)(b.last, now) >= 1.0)
      && next.tokens + (if allowed then 1.0 else 0.0) == Min(capacity, b.tokens + Earned(rate)(b.last, now))
      && next.last == now && next.tokens <= capacity
  {
    assert now == b.last ==> Gain(rate, b.last, now) == 0.0;
  }

  lemma EarnedAdds(rate: real, a: int, b: int, c: int)
    ensures Earned(rate)(a, b) + Earned(rate)(b, c) == Earned(rate)(a, c)
  {
    GainAdds(rate, a, b, c);
    assert Earned(rate)(a, b) == Gain(rate, a, b) && Earned(rate)(b, c) == Gain(rate, b, c) && Earned(rate)(a, c) == Gain(rate, a, c);
  }

  lemma EarnedPositive(rate: real, a: int, b: int)
    requires rate >= 0.0 && a <= b
    ensures Earned(rate)(a, b) >= 0.0
  {
    GainMonotone(rate, a, a, b);
    assert Gain(rate, a, a) == 0.0 && Earned(rate)(a, b) == Gain(rate, a, b);
  }

  /** The first decision and the state it leaves, with everything earned named. */
  lemma FirstDecision(capacity: real, rate: real, b: Bucket, times: seq<int>) returns (next: Bucket, first: bool)
    requires rate >= 0.0 && b.tokens <= capacity && Forward(b.last, times) && times != []
    ensures Decisions(capacity, rate, b, times) == [first] + Decisions(capacity, rate, next, times[1..])
    ensures first <==> capacity >= 1.0 && b.tokens + Earned(rate)(b.last, times[0]) >= 1.0
    ensures next.tokens + (if first then 1.0 else 0.0) == Min(capacity, b.tokens + Earned(rate)(b.last, times[0]))
    ensures next.last == times[0] && next.tokens <= capacity
  {
    next, first := Step(capacity, rate, b, times[0]).0, Step(capacity, rate, b, times[0]).1;
    FirstCall(capacity, rate, b, times[0]);
  }

  lemma {:induction false} AllowedFrom(capacity: real, rate: real, b: Bucket, times: seq<int>, n: nat, allowed: seq<bool>)
    requires rate >= 0.0 && b.tokens <= capacity && Forward(b.last, times) && n < |times| && allowed == Decisions(capacity, rate, b, times)
    ensures AllowedAsCovered(capacity, Earned(rate), b, times, allowed, n)
    decreases |times|
  {
    var next, first := FirstDecision(capacity, rate, b, times);
    if n > 0 {
      AllowedFrom(capacity, rate, next, times[1..], n - 1, allowed[1..]);
      EarnedAdds(rate, b.last, times[0], times[n]);
      NextCall(capacity, Earned(rate), b, times, allowed, n - 1, next);
    }
  }

  lemma {:induction false} ReadingsForward(from: int, times: seq<int>, i: nat, j: nat)
    requires Forward(from, times) && i <= j < |times|
    ensures from <= times[i] <= times[j]
    decreases |times|
  {
    if j > 0 {
      ReadingsForward(times[0], times[1..], if i > 0 then i - 1 else 0, j - 1);
    }
  }

  /** From a full bucket a call is allowed exactly when the capacity admits a call at all and, for every earlier
      call, those allowed since leave room for it in what capacity and time provide. */
  lemma AllowedIff(capacity: real, rate: real, start: int, times: seq<int>, n: nat)
    requires rate >= 0.0 && Forward(start, times) && n < |times|
    ensures var allowed := Decisions(capacity, rate, Bucket(capacity, start), times);
      allowed[n] <==> capacity >= 1.0 && CoveredThroughout(capacity, Earned(rate), times, allowed, n)
  {
    var allowed := Decisions(capacity, rate, Bucket(capacity, start), times);
    AllowedFrom(capacity, rate, Bucket(capacity, start), times, n, allowed);
    ReadingsForward(start, times, 0, n);
    EarnedAdds(rate, start, times[0], times[n]);
    EarnedPositive(rate, start, times[0]);
    EarnedPositive(rate, times[0], times[n]);
    assert allowed[..n] == allowed[0..n];
    if n > 0 && CoveredThroughout(capacity, Earned(rate), times, allowed, n) {
      assert Covered(capacity, Earned(rate), times, allowed, 0, n);
    }
  }

  /** The row-backed limiter on a new key: the same, except that the first call always passes. */
  lemma RowAllowedIff(capacity: real, rate: real, times: seq<int>, n: nat)
    requires rate >= 0.0 && n < |times| && Forward(times[0], times)
    ensures var allowed := RowDecisions(capacity, rate, None, times);
      allowed[n] <==> n == 0 || (capacity >= 1.0 && CoveredThroughout(capacity, Earned(rate), times, allowed, n))
  {
    if capacity >= 1.0 {
      SameDecisionsIff(capacity, rate, times[0], times);
      AllowedIff(capacity, rate, times[0], times, n);
    } else if n > 0 {
      var next := Bucket(capacity - 1.0, times[0]);
      SameRow(capacity, rate, next, times[1..]);
      AllowedFrom(capacity, rate, next, times[1..], n - 1, Decisions(capacity, rate, next, times[1..]));
    }
  }

  lemma {:induction false} CountBound(ds: seq<bool>)
    ensures Count(ds) <= |ds|
    decreases |ds|
  {
    if ds != [] {
      CountBound(ds[1..]);
    }
  }

  /** A burst: the first calls up to the capacity pass, however close together. */
  lemma BurstPasses(capacity: real, rate: real, start: int, times: seq<int>, n: nat)
    requires rate >= 0.0 && Forward(start, times) && n < |times| && (n + 1) as real <= capacity
    ensures Decisions(capacity, rate, Bucket(capacity, start), times)[n]
  {
    var allowed := Decisions(capacity, rate, Bucket(capacity, start), times);
    AllowedIff(capacity, rate, start, times, n);
    forall j: nat | j < n
      ensures Covered(capacity, Earned(rate), times, allowed, j, n)
    {
      CountBound(allowed[j..n]);
      ReadingsForward(start, times, j, n);
      EarnedPositive(rate, times[j], times[n]);
    }
  }

  lemma WindowEarned(capacity: real, rate: real, start: int, times: seq<int>, j: nat, n: nat, allowed: seq<bool>)
    requires rate >= 0.0 && capacity >= 1.0 && Forward(start, times) && j < n < |times|
    requires allowed == Decisions(capacity, rate, Bucket(capacity, start), times)
    ensures Count(allowed[j..n]) as real <= capacity + Earned(rate)(times[j], times[n - 1])
  {
    var before, window, after := Cut(times, j, n);
    WindowBound(capacity, rate, start, before, window, after);
    assert Gain(rate, times[j], times[n - 1]) == Earned(rate)(times[j], times[n - 1]);
  }

  lemma Cut(times: seq<int>, j: nat, n: nat) returns (before: seq<int>, window: seq<int>, after: seq<int>)
    requires j < n < |times|
    ensures before + window + after == times && |before| == j && |window| == n - j
    ensures window[0] == times[j] && window[|window| - 1] == times[n - 1]
  {
    before, window, after := times[..j], times[j..n], times[n..];
  }

  lemma RecoveryCovers(capacity: real, rate: real, start: int, times: seq<int>, j: nat, n: nat, allowed: seq<bool>)
    requires rate >= 0.0 && capacity >= 1.0 && Forward(start, times) && j < n < |times|
    requires Earned(rate)(times[n - 1], times[n]) >= 1.0 && allowed == Decisions(capacity, rate, Bucket(capacity, start), times)
    ensures Covered(capacity, Earned(rate), times, allowed, j, n)
  {
    WindowEarned(capacity, rate, start, times, j, n, allowed);
    EarnedAdds(rate, times[j], times[n - 1], times[n]);
  }

  /** Recovery: a call that comes after the time in which one token is earned passes, however drained the bucket
      was. */
  lemma RecoveryPasses(capacity: real, rate: real, start: int, times: seq<int>, n: nat)
    requires rate >= 0.0 && capacity >= 1.0 && Forward(start, times) && 0 < n < |times|
    requires Earned(rate)(times[n - 1], times[n]) >= 1.0
    ensures Decisions(capacity, rate, Bucket(capacity, start), times)[n]
  {
    var allowed := Decisions(capacity, rate, Bucket(capacity, start), times);
    AllowedIff(capacity, rate, start, times, n);
    forall j: nat | j < n
      ensures Covered(capacity, Earned(rate), times, allowed, j, n)
    {
      RecoveryCovers(capacity, rate, start, times, j, n, allowed);
    }
  }

  // ---------- the sending quota ----------

  lemma {:induction false} CountAll(ds: seq<bool>)
    requires forall i | 0 <= i < |ds| :: ds[i]
    ensures Count(ds) == |ds|
    decreases |ds|
  {
    if ds != [] {
      CountAll(ds[1..]);
    }
  }

  lemma RowBurst(capacity: real, rate: real, times: seq<int>)
    requires rate >= 0.0 && capacity >= 1.0 && times != [] && Forward(times[0], times) && |times| as real <= capacity
    ensures Count(RowDecisions(capacity, rate, None, times)) == |times|
  {
    var allowed := RowDecisions(capacity, rate, None, times);
    SameDecisionsIff(capacity, rate, times[0], times);
    forall n | 0 <= n < |times|
      ensures allowed[n]
    {
      BurstPasses(capacity, rate, times[0], times, n);
    }
    CountAll(allowed);
  }

  /** A vhost passes its first Q quota checks, whatever other vhosts send. */
  lemma QuotaPasses(vhostId: string, quota: int, start: int, calls: seq<Call>)
    requires quota >= 1 && Forward(start, Times(calls))
    requires forall c | c in calls && c.key == QuotaKey(vhostId) :: IsQuotaCall(c, vhostId, quota)
    requires |OnKey(calls, QuotaKey(vhostId))| <= quota
    ensures Passed(map[], calls, QuotaKey(vhostId)) == |OnKey(calls, QuotaKey(vhostId))|
  {
    var key, mine := QuotaKey(vhostId), OnKey(calls, QuotaKey(vhostId));
    var capacity, rate := quota as real, quota as real / SECONDS_PER_DAY as real;
    KeysIndependent(map[], calls, key, capacity, rate);
    OnKeyForward(calls, key, start);
    TimesLast(mine);
    if mine != [] {
      RowBurst(capacity, rate, Times(mine));
    }
  }

  /** Two vhosts never share a quota row. */
  lemma QuotasSeparate(a: string, b: string)
    requires a != b
    ensures QuotaKey(a) != QuotaKey(b)
  {
    assert QuotaKey(a)[6..] == a && QuotaKey(b)[6..] == b;
  }
}
