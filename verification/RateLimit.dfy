/** Token buckets (internal/ratelimit): the in-process TokenBucket and the row-backed limiter, in exact
    real arithmetic over a clock of integer nanoseconds. */
module RateLimit {
  import opened RetryQueue

  /** Tokens earned between two instants at `rate` tokens per second. */
  function Gain(rate: real, from: int, to: int): real {
    rate * ((to - from) as real / 1_000_000_000.0)
  }

  lemma GainAdds(rate: real, a: int, b: int, c: int)
    ensures Gain(rate, a, b) + Gain(rate, b, c) == Gain(rate, a, c)
  {
    var ab, bc := (b - a) as real / 1_000_000_000.0, (c - b) as real / 1_000_000_000.0;
    assert ab + bc == (c - a) as real / 1_000_000_000.0;
    assert rate * (ab + bc) == rate * ab + rate * bc;
  }

  lemma GainMonotone(rate: real, a: int, b: int, c: int)
    requires rate >= 0.0 && b <= c
    ensures Gain(rate, a, b) <= Gain(rate, a, c)
  {
    var bc := (c - b) as real / 1_000_000_000.0;
    assert bc >= 0.0;
    assert rate * bc >= 0.0;
    GainAdds(rate, a, b, c);
  }

  function Min(a: real, b: real): real {
    if a > b then b else a
  }

  datatype Bucket = Bucket(tokens: real, last: int)

  // ---------- the in-process bucket ----------

  function Refilled(capacity: real, rate: real, b: Bucket, now: int): Bucket {
    if now <= b.last then b else Bucket(Min(b.tokens + Gain(rate, b.last, now), capacity), now)
  }

  function Spend(b: Bucket): Bucket {
    if b.tokens < 1.0 then b else b.(tokens := b.tokens - 1.0)
  }

  /** The state after a call at `now`; the call is allowed when a whole token is there. */
  function Step(capacity: real, rate: real, b: Bucket, now: int): (Bucket, bool) {
    var r := Refilled(capacity, rate, b, now);
    (Spend(r), r.tokens >= 1.0)
  }

  class TokenBucket {
    const capacity: real
    const refillRate: real
    var tokens: real
    var last: int

    ghost function State(): Bucket
      reads this
    {
      Bucket(tokens, last)
    }

    constructor (capacity: real, refillPerSecond: real, now: int)
      ensures this.capacity == capacity && refillRate == refillPerSecond
      ensures State() == Bucket(capacity, now)
    {
      this.capacity, refillRate, tokens, last := capacity, refillPerSecond, capacity, now;
    }

    method Refill(now: int)
      modifies this
      ensures State() == Refilled(capacity, refillRate, old(State()), now)
    {
      if now - last <= 0 {
        return;
      }
      var elapsed := (now - last) as real / 1_000_000_000.0;
      last := now;
      tokens := tokens + refillRate * elapsed;
      if tokens > capacity {
        tokens := capacity;
      }
    }

    method Allow(now: int) returns (allowed: bool)
      modifies this
      ensures (State(), allowed) == Step(capacity, refillRate, old(State()), now)
    {
      Refill(now);
      if tokens < 1.0 {
        return false;
      }
      tokens := tokens - 1.0;
      return true;
    }
  }

  function Decisions(capacity: real, rate: real, b: Bucket, times: seq<int>): (ds: seq<bool>)
    ensures |ds| == |times|
    decreases |times|
  {
    if times == [] then []
    else
      var (next, allowed) := Step(capacity, rate, b, times[0]);
      [allowed] + Decisions(capacity, rate, next, times[1..])
  }

  function After(capacity: real, rate: real, b: Bucket, times: seq<int>): Bucket
    decreases |times|
  {
    if times == [] then b else After(capacity, rate, Step(capacity, rate, b, times[0]).0, times[1..])
  }

  // ---------- the row-backed bucket ----------

  /** tryAllow as one atomic step on the key's row, if it has one. */
  function RowStep(capacity: real, rate: real, row: Option<Bucket>, now: int): (Bucket, bool) {
    if row.None? then (Bucket(capacity - 1.0, now), true)
    else
      var b := row.value;
      var tokens := if now > b.last then Min(b.tokens + Gain(rate, b.last, now), capacity) else b.tokens;
      if tokens < 1.0 then (Bucket(tokens, now), false) else (Bucket(tokens - 1.0, now), true)
  }

  function RowDecisions(capacity: real, rate: real, row: Option<Bucket>, times: seq<int>): (ds: seq<bool>)
    ensures |ds| == |times|
    decreases |times|
  {
    if times == [] then []
    else
      var (next, allowed) := RowStep(capacity, rate, row, times[0]);
      [allowed] + RowDecisions(capacity, rate, Some(next), times[1..])
  }

  /** The rate_limit_buckets table. */
  class Limiter {
    var rows: map<string, Bucket>

    constructor ()
      ensures rows == map[]
    {
      rows := map[];
    }

    method Allow(key: string, capacity: real, refillPerSecond: real, now: int) returns (allowed: bool)
      modifies this
      ensures rows == old(rows)[key := RowStep(capacity, refillPerSecond, Row(old(rows), key), now).0]
      ensures allowed == RowStep(capacity, refillPerSecond, Row(old(rows), key), now).1
    {
      if key in rows {
        var row := rows[key];
        if now - row.last > 0 {
          var elapsed := (now - row.last) as real / 1_000_000_000.0;
          assert refillPerSecond * elapsed == Gain(refillPerSecond, row.last, now);
          row := row.(tokens := row.tokens + refillPerSecond * elapsed);
          if row.tokens > capacity {
            row := row.(tokens := capacity);
          }
        }
        if row.tokens < 1.0 {
          row := row.(last := now);
          allowed := false;
        } else {
          row := Bucket(row.tokens - 1.0, now);
          allowed := true;
        }
        assert (row, allowed) == RowStep(capacity, refillPerSecond, Some(rows[key]), now);
        rows := rows[key := row];
      } else {
        rows := rows[key := Bucket(capacity - 1.0, now)];
        allowed := true;
      }
    }
  }

  function Row(rows: map<string, Bucket>, key: string): Option<Bucket> {
    if key in rows then Some(rows[key]) else None
  }

  // ---------- the two versions agree ----------

  /** The clock, first read at `from`, never goes back. */
  predicate Forward(from: int, times: seq<int>)
    decreases |times|
  {
    times == [] || (from <= times[0] && Forward(times[0], times[1..]))
  }

  lemma {:induction false} SameRow(capacity: real, rate: real, b: Bucket, times: seq<int>)
    requires Forward(b.last, times)
    ensures RowDecisions(capacity, rate, Some(b), times) == Decisions(capacity, rate, b, times)
    decreases |times|
  {
    if times != [] {
      SameRow(capacity, rate, Step(capacity, rate, b, times[0]).0, times[1..]);
    }
  }

  /** From scratch and under a forward clock, the two limiters decide every call sequence alike exactly
      when the capacity admits a first call. */
  lemma SameDecisionsIff(capacity: real, rate: real, start: int, times: seq<int>)
    requires rate >= 0.0 && times != [] && Forward(start, times)
    ensures RowDecisions(capacity, rate, None, times) == Decisions(capacity, rate, Bucket(capacity, start), times) <==> capacity >= 1.0
  {
    GainMonotone(rate, start, start, times[0]);
    assert Gain(rate, start, start) == 0.0;
    var initial := Bucket(capacity, start);
    assert Step(capacity, rate, initial, times[0]).1 == (capacity >= 1.0);
    if capacity >= 1.0 {
      var next := Bucket(capacity - 1.0, times[0]);
      assert Step(capacity, rate, initial, times[0]) == (next, true);
      SameRow(capacity, rate, next, times[1..]);
    } else {
      assert RowDecisions(capacity, rate, None, times)[0] != Decisions(capacity, rate, initial, times)[0];
    }
  }

  lemma {:induction false} Split(capacity: real, rate: real, b: Bucket, before: seq<int>, after: seq<int>)
    ensures Decisions(capacity, rate, b, before + after)
         == Decisions(capacity, rate, b, before) + Decisions(capacity, rate, After(capacity, rate, b, before), after)
    decreases |before|
  {
    if before == [] {
      assert before + after == after;
    } else {
      assert (before + after)[0] == before[0] && (before + after)[1..] == before[1..] + after;
      Split(capacity, rate, Step(capacity, rate, b, before[0]).0, before[1..], after);
    }
  }

  // ---------- on which clocks they agree ----------

  /** The clock, last read at `from`, never goes forward again. */
  predicate NeverRises(from: int, times: seq<int>)
    decreases |times|
  {
    times == [] || (times[0] <= from && NeverRises(times[0], times[1..]))
  }

  /** The clock, first read at `from`, goes forward, and once it has stepped back never goes forward again. */
  predicate Unimodal(from: int, times: seq<int>)
    decreases |times|
  {
    times == [] || (if times[0] >= from then Unimodal(times[0], times[1..]) else NeverRises(times[0], times[1..]))
  }

  /** While the clock falls neither version earns tokens, though only the row rewrites its timestamp. */
  lemma {:induction false} SameFalling(capacity: real, rate: real, b: Bucket, row: Bucket, times: seq<int>)
    requires row.tokens == b.tokens && row.last <= b.last && NeverRises(row.last, times)
    ensures RowDecisions(capacity, rate, Some(row), times) == Decisions(capacity, rate, b, times)
    decreases |times|
  {
    if times != [] {
      SameFalling(capacity, rate, Step(capacity, rate, b, times[0]).0, RowStep(capacity, rate, Some(row), times[0]).0, times[1..]);
    }
  }

  lemma {:induction false} SameUnimodal(capacity: real, rate: real, b: Bucket, times: seq<int>)
    requires Unimodal(b.last, times)
    ensures RowDecisions(capacity, rate, Some(b), times) == Decisions(capacity, rate, b, times)
    decreases |times|
  {
    if times != [] && times[0] >= b.last {
      SameUnimodal(capacity, rate, Step(capacity, rate, b, times[0]).0, times[1..]);
    } else if times != [] {
      SameFalling(capacity, rate, Step(capacity, rate, b, times[0]).0, RowStep(capacity, rate, Some(b), times[0]).0, times[1..]);
    }
  }

  /** All clock readings lie in [low, high], over which less than one token is earned. */
  predicate Slow(rate: real, low: int, high: int, from: int, times: seq<int>) {
    && rate > 0.0 && Gain(rate, low, high) <= 0.5 && low <= from <= high
    && forall i | 0 <= i < |times| :: low <= times[i] <= high
  }

  lemma SlowGain(rate: real, low: int, high: int, a: int, b: int)
    requires rate > 0.0 && Gain(rate, low, high) <= 0.5 && low <= a <= b <= high
    ensures 0.0 <= Gain(rate, a, b) <= 0.5
    ensures a < b ==> Gain(rate, a, b) > 0.0
  {
    GainMonotone(rate, low, b, high);
    GainMonotone(rate, low, low, a);
    GainMonotone(rate, a, a, b);
    GainAdds(rate, low, a, b);
    assert Gain(rate, low, low) == 0.0 && Gain(rate, a, a) == 0.0;
    if a < b {
      var elapsed := (b - a) as real / 1_000_000_000.0;
      assert elapsed > 0.0 && rate * elapsed > 0.0;
    }
  }

  lemma DifferLater(capacity: real, rate: real, b: Bucket, row: Bucket, times: seq<int>)
    requires times != []
    requires var b', row' := Step(capacity, rate, b, times[0]).0, RowStep(capacity, rate, Some(row), times[0]).0;
      RowDecisions(capacity, rate, Some(row'), times[1..]) != Decisions(capacity, rate, b', times[1..])
    ensures RowDecisions(capacity, rate, Some(row), times) != Decisions(capacity, rate, b, times)
  {
    var rs, ds := RowDecisions(capacity, rate, Some(row), times), Decisions(capacity, rate, b, times);
    assert rs[1..] == RowDecisions(capacity, rate, Some(RowStep(capacity, rate, Some(row), times[0]).0), times[1..]);
    assert ds[1..] == Decisions(capacity, rate, Step(capacity, rate, b, times[0]).0, times[1..]);
  }

  /** A clock that has fallen below its peak and then rises: with the right number of tokens the row has just
      earned one when the bucket has not. */
  lemma {:induction false} DiffersFalling(rate: real, low: int, high: int, peak: int, last: int, times: seq<int>, capacity: real) returns (tokens: real)
    requires Slow(rate, low, high, last, times) && last < peak <= high && !NeverRises(last, times) && capacity >= |times| as real + 2.0
    ensures 0.5 <= tokens <= |times| as real + 2.0
    ensures RowDecisions(capacity, rate, Some(Bucket(tokens, last)), times) != Decisions(capacity, rate, Bucket(tokens, peak), times)
    decreases |times|
  {
    var now, rest := times[0], times[1..];
    if now <= last {
      tokens := DiffersFalling(rate, low, high, peak, now, rest, capacity);
      tokens := tokens + 1.0;
      assert Step(capacity, rate, Bucket(tokens, peak), now) == (Bucket(tokens - 1.0, peak), true);
      assert RowStep(capacity, rate, Some(Bucket(tokens, last)), now) == (Bucket(tokens - 1.0, now), true);
      DifferLater(capacity, rate, Bucket(tokens, peak), Bucket(tokens, last), times);
    } else {
      SlowGain(rate, low, high, last, now);
      tokens := 1.0 - Gain(rate, last, now);
      if now > peak {
        GainAdds(rate, last, peak, now);
        SlowGain(rate, low, high, last, peak);
      }
      assert RowDecisions(capacity, rate, Some(Bucket(tokens, last)), times)[0];
      assert !Decisions(capacity, rate, Bucket(tokens, peak), times)[0];
    }
  }

  lemma {:induction false} Differs(rate: real, low: int, high: int, from: int, times: seq<int>, capacity: real) returns (tokens: real)
    requires Slow(rate, low, high, from, times) && !Unimodal(from, times) && capacity >= |times| as real + 2.0
    ensures 0.5 <= tokens <= |times| as real + 2.0
    ensures RowDecisions(capacity, rate, Some(Bucket(tokens, from)), times) != Decisions(capacity, rate, Bucket(tokens, from), times)
    decreases |times|
  {
    var now, rest := times[0], times[1..];
    if now >= from {
      tokens := Differs(rate, low, high, now, rest, capacity);
      SlowGain(rate, low, high, from, now);
      tokens := tokens + 1.0 - Gain(rate, from, now);
      var next := Bucket(tokens + Gain(rate, from, now) - 1.0, now);
      assert Step(capacity, rate, Bucket(tokens, from), now) == (next, true);
      assert RowStep(capacity, rate, Some(Bucket(tokens, from)), now) == (next, true);
      DifferLater(capacity, rate, Bucket(tokens, from), Bucket(tokens, from), times);
    } else {
      tokens := DiffersFalling(rate, low, high, from, now, rest, capacity);
      tokens := tokens + 1.0;
      assert Step(capacity, rate, Bucket(tokens, from), now) == (Bucket(tokens - 1.0, from), true);
      assert RowStep(capacity, rate, Some(Bucket(tokens, from)), now) == (Bucket(tokens - 1.0, now), true);
      DifferLater(capacity, rate, Bucket(tokens, from), Bucket(tokens, from), times);
    }
  }

  lemma {:induction false} ReadingsBounded(from: int, times: seq<int>) returns (low: int, high: int)
    ensures low <= from <= high && forall i | 0 <= i < |times| :: low <= times[i] <= high
    decreases |times|
  {
    low, high := from, from;
    if times != [] {
      var l, h := ReadingsBounded(times[0], times[1..]);
      low, high := if l < from then l else from, if h > from then h else from;
    }
  }

  /** The clocks on which the two versions agree, whatever capacity, rate and tokens: exactly those that do not
      go forward again after stepping back. A backward step alone is harmless. */
  lemma AgreeOnClockIff(from: int, times: seq<int>)
    ensures (forall capacity, rate, b: Bucket | rate >= 0.0 && 0.0 <= b.tokens <= capacity && b.last == from ::
               RowDecisions(capacity, rate, Some(b), times) == Decisions(capacity, rate, b, times))
       <==> Unimodal(from, times)
  {
    if Unimodal(from, times) {
      forall capacity, rate, b: Bucket | rate >= 0.0 && 0.0 <= b.tokens <= capacity && b.last == from
        ensures RowDecisions(capacity, rate, Some(b), times) == Decisions(capacity, rate, b, times)
      {
        SameUnimodal(capacity, rate, b, times);
      }
    } else {
      var low, high := ReadingsBounded(from, times);
      var rate := SlowRate(low, high);
      var capacity := |times| as real + 2.0;
      var tokens := Differs(rate, low, high, from, times, capacity);
      var b := Bucket(tokens, from);
      assert RowDecisions(capacity, rate, Some(b), times) != Decisions(capacity, rate, b, times);
    }
  }

  lemma SlowRate(low: int, high: int) returns (rate: real)
    requires low <= high
    ensures rate > 0.0 && Gain(rate, low, high) <= 0.5
  {
    var span := (high - low) as real;
    rate := 500_000_000.0 / (span + 1.0);
    assert rate * (span + 1.0) == 500_000_000.0;
    assert rate * span <= 500_000_000.0;
    assert rate * (span / 1_000_000_000.0) == rate * span / 1_000_000_000.0;
  }

  // ---------- denied calls leave no trace ----------

  lemma RefillTwice(capacity: real, rate: real, b: Bucket, t: int, u: int)
    requires rate >= 0.0 && b.tokens <= capacity && b.last <= t <= u
    ensures Refilled(capacity, rate, Refilled(capacity, rate, b, t), u) == Refilled(capacity, rate, b, u)
  {
    GainAdds(rate, b.last, t, u);
    GainMonotone(rate, b.last, t, u);
    GainMonotone(rate, t, t, u);
    assert Gain(rate, t, t) == 0.0;
  }

  lemma StepBounded(capacity: real, rate: real, b: Bucket, t: int)
    requires rate >= 0.0 && 0.0 <= b.tokens <= capacity && b.last <= t
    ensures var n := Step(capacity, rate, b, t).0; 0.0 <= n.tokens <= capacity && n.last == t
  {
    GainMonotone(rate, b.last, b.last, t);
    assert Gain(rate, b.last, b.last) == 0.0;
  }

  /** Taking a denied call out of a run, or putting one in, changes no other decision. */
  lemma {:induction false} DeniedCallIrrelevant(capacity: real, rate: real, b: Bucket, times: seq<int>, i: nat)
    requires rate >= 0.0 && 0.0 <= b.tokens <= capacity && Forward(b.last, times)
    requires i < |times| && !Decisions(capacity, rate, b, times)[i]
    ensures var ds := Decisions(capacity, rate, b, times);
      Decisions(capacity, rate, b, times[..i] + times[i + 1..]) == ds[..i] + ds[i + 1..]
    decreases |times|
  {
    var next := Step(capacity, rate, b, times[0]).0;
    var rest := times[1..];
    StepBounded(capacity, rate, b, times[0]);
    if i == 0 {
      assert times[..0] + times[1..] == rest;
      if rest != [] {
        RefillTwice(capacity, rate, b, times[0], rest[0]);
        assert Step(capacity, rate, next, rest[0]) == Step(capacity, rate, b, rest[0]);
      }
    } else {
      DeniedCallIrrelevant(capacity, rate, next, rest, i - 1);
      var fewer := times[..i] + times[i + 1..];
      assert fewer[0] == times[0] && fewer[1..] == rest[..i - 1] + rest[i..];
    }
  }

  // ---------- how much any window lets through ----------

  function Count(ds: seq<bool>): nat
    decreases |ds|
  {
    if ds == [] then 0 else (if ds[0] then 1 else 0) + Count(ds[1..])
  }

  /** Calls allowed from state `b` never exceed its tokens plus what the time earns. */
  lemma {:induction false} Budget(capacity: real, rate: real, b: Bucket, times: seq<int>)
    requires rate >= 0.0 && 0.0 <= b.tokens <= capacity && Forward(b.last, times) && times != []
    ensures Count(Decisions(capacity, rate, b, times)) as real <= b.tokens + Gain(rate, b.last, times[|times| - 1])
    decreases |times|
  {
    var (next, allowed) := Step(capacity, rate, b, times[0]);
    var ds := Decisions(capacity, rate, b, times);
    StepBounded(capacity, rate, b, times[0]);
    assert ds[0] == allowed && ds[1..] == Decisions(capacity, rate, next, times[1..]);
    assert next.tokens + (if allowed then 1.0 else 0.0) <= b.tokens + Gain(rate, b.last, times[0]) by {
      assert times[0] == b.last ==> Gain(rate, b.last, times[0]) == 0.0;
    }
    if |times| > 1 {
      var last := times[|times| - 1];
      Budget(capacity, rate, next, times[1..]);
      GainAdds(rate, b.last, times[0], last);
    }
  }

  lemma {:induction false} RunBounded(capacity: real, rate: real, b: Bucket, times: seq<int>)
    requires rate >= 0.0 && 0.0 <= b.tokens <= capacity && Forward(b.last, times)
    ensures var n := After(capacity, rate, b, times); 0.0 <= n.tokens <= capacity && b.last <= n.last
    ensures times != [] ==> After(capacity, rate, b, times).last == times[|times| - 1]
    decreases |times|
  {
    if times != [] {
      StepBounded(capacity, rate, b, times[0]);
      RunBounded(capacity, rate, Step(capacity, rate, b, times[0]).0, times[1..]);
    }
  }

  lemma {:induction false} ForwardTail(from: int, before: seq<int>, after: seq<int>)
    requires Forward(from, before + after)
    ensures Forward(from, before) && Forward(if before == [] then from else before[|before| - 1], after)
    decreases |before|
  {
    if before == [] {
      assert before + after == after;
    } else {
      assert (before + after)[1..] == before[1..] + after;
      ForwardTail(before[0], before[1..], after);
    }
  }

  lemma WindowFrom(capacity: real, rate: real, b: Bucket, window: seq<int>)
    requires rate >= 0.0 && 0.0 <= b.tokens <= capacity && Forward(b.last, window) && window != []
    ensures Count(Decisions(capacity, rate, b, window)) as real <= capacity + Gain(rate, window[0], window[|window| - 1])
  {
    var full := Refilled(capacity, rate, b, window[0]);
    GainMonotone(rate, b.last, b.last, window[0]);
    assert Gain(rate, b.last, b.last) == 0.0;
    assert 0.0 <= full.tokens <= capacity && full.last == window[0];
    assert Step(capacity, rate, full, window[0]) == Step(capacity, rate, b, window[0]);
    Budget(capacity, rate, full, window);
  }

  /** Every contiguous window of the calls a bucket sees lets through at most its capacity plus what the
      window's time earns. */
  lemma WindowBound(capacity: real, rate: real, start: int, before: seq<int>, window: seq<int>, after: seq<int>)
    requires rate >= 0.0 && capacity >= 0.0 && window != [] && Forward(start, before + window + after)
    ensures var ds := Decisions(capacity, rate, Bucket(capacity, start), before + window + after);
      Count(ds[|before|..|before| + |window|]) as real <= capacity + Gain(rate, window[0], window[|window| - 1])
  {
    var initial := Bucket(capacity, start);
    ForwardTail(start, before + window, after);
    ForwardTail(start, before, window);
    RunBounded(capacity, rate, initial, before);
    var mid := After(capacity, rate, initial, before);
    Split(capacity, rate, initial, before + window, after);
    Split(capacity, rate, initial, before, window);
    var ds := Decisions(capacity, rate, initial, before + window + after);
    assert ds[|before|..|before| + |window|] == Decisions(capacity, rate, mid, window);
    WindowFrom(capacity, rate, mid, window);
  }

  // ---------- the daily quota ----------

  datatype Channel = Submission | Rest

  /** One limiter call by either channel; checkQuota is a call with key "quota:" + vhost ID, capacity Q and
      rate Q per day. */
  datatype Call = Call(channel: Channel, key: string, capacity: real, rate: real, at: int)

  const SECONDS_PER_DAY := 86400
  const DAY := 86400 * 1_000_000_000

  function QuotaKey(vhostId: string): string {
    "quota:" + vhostId
  }

  /** Both checkQuota functions pass exactly these arguments. */
  predicate IsQuotaCall(c: Call, vhostId: string, quota: int) {
    c.key == QuotaKey(vhostId) && c.capacity == quota as real && c.rate == quota as real / SECONDS_PER_DAY as real
  }

  function Times(calls: seq<Call>): seq<int>
    decreases |calls|
  {
    if calls == [] then [] else [calls[0].at] + Times(calls[1..])
  }

  function TableAfter(rows: map<string, Bucket>, calls: seq<Call>): map<string, Bucket>
    decreases |calls|
  {
    if calls == [] then rows
    else
      var c := calls[0];
      TableAfter(rows[c.key := RowStep(c.capacity, c.rate, Row(rows, c.key), c.at).0], calls[1..])
  }

  /** How many of the calls on `key` the table lets through. */
  function Passed(rows: map<string, Bucket>, calls: seq<Call>, key: string): nat
    decreases |calls|
  {
    if calls == [] then 0
    else
      var c := calls[0];
      var (row, allowed) := RowStep(c.capacity, c.rate, Row(rows, c.key), c.at);
      (if c.key == key && allowed then 1 else 0) + Passed(rows[c.key := row], calls[1..], key)
  }

  function OnKey(calls: seq<Call>, key: string): seq<Call>
    decreases |calls|
  {
    if calls == [] then []
    else (if calls[0].key == key then [calls[0]] else []) + OnKey(calls[1..], key)
  }

  /** Calls on other keys do not matter: a key sees exactly its own row's decisions. */
  lemma {:induction false} KeysIndependent(rows: map<string, Bucket>, calls: seq<Call>, key: string, capacity: real, rate: real)
    requires forall c | c in calls && c.key == key :: c.capacity == capacity && c.rate == rate
    ensures Passed(rows, calls, key) == Count(RowDecisions(capacity, rate, Row(rows, key), Times(OnKey(calls, key))))
    decreases |calls|
  {
    if calls != [] {
      var c := calls[0];
      var (row, allowed) := RowStep(c.capacity, c.rate, Row(rows, c.key), c.at);
      assert c in calls && forall d | d in calls[1..] :: d in calls;
      KeysIndependent(rows[c.key := row], calls[1..], key, capacity, rate);
      var rest := OnKey(calls[1..], key);
      if c.key == key {
        assert OnKey(calls, key) == [c] + rest;
        assert Times([c] + rest) == [c.at] + Times(rest) by {
          assert ([c] + rest)[1..] == rest;
        }
        var times := [c.at] + Times(rest);
        assert times[1..] == Times(rest);
        var ds := RowDecisions(capacity, rate, Row(rows, key), times);
        assert ds[1..] == RowDecisions(capacity, rate, Some(row), Times(rest));
      } else {
        assert OnKey(calls, key) == rest;
        assert Row(rows[c.key := row], key) == Row(rows, key);
      }
    }
  }

  /** The row of a key, once it exists, holds between 0 and capacity tokens and a past timestamp. */
  ghost predicate RowOk(row: Option<Bucket>, capacity: real, now: int) {
    row.Some? ==> 0.0 <= row.value.tokens <= capacity && row.value.last <= now
  }

  lemma {:induction false} RowStaysOk(rows: map<string, Bucket>, calls: seq<Call>, key: string, capacity: real, rate: real, from: int)
    requires capacity >= 1.0 && rate >= 0.0 && Forward(from, Times(calls)) && RowOk(Row(rows, key), capacity, from)
    requires forall c | c in calls && c.key == key :: c.capacity == capacity && c.rate == rate
    ensures RowOk(Row(TableAfter(rows, calls), key), capacity, if calls == [] then from else calls[|calls| - 1].at)
    decreases |calls|
  {
    if calls != [] {
      var c := calls[0];
      assert c in calls && forall d | d in calls[1..] :: d in calls;
      assert Times(calls)[1..] == Times(calls[1..]);
      var row := RowStep(c.capacity, c.rate, Row(rows, c.key), c.at).0;
      if c.key == key {
        OneRowOk(capacity, rate, Row(rows, key), from, c.at);
      }
      RowStaysOk(rows[c.key := row], calls[1..], key, capacity, rate, c.at);
    }
  }

  lemma OneRowOk(capacity: real, rate: real, row: Option<Bucket>, from: int, at: int)
    requires capacity >= 1.0 && rate >= 0.0 && RowOk(row, capacity, from) && from <= at
    ensures RowOk(Some(RowStep(capacity, rate, row, at).0), capacity, at)
  {
    if row.Some? {
      GainMonotone(rate, row.value.last, row.value.last, at);
      assert Gain(rate, row.value.last, row.value.last) == 0.0;
    }
  }

  lemma {:induction false} OnKeyForward(calls: seq<Call>, key: string, from: int)
    requires Forward(from, Times(calls))
    ensures Forward(from, Times(OnKey(calls, key)))
    ensures var mine := Times(OnKey(calls, key)); mine != [] ==>
      from <= mine[0] <= mine[|mine| - 1] <= calls[|calls| - 1].at
    ensures calls != [] ==> var mine := Times(OnKey(calls, key)); mine != [] ==> calls[0].at <= mine[0]
    decreases |calls|
  {
    if calls != [] {
      assert Times(calls)[1..] == Times(calls[1..]);
      OnKeyForward(calls[1..], key, calls[0].at);
      var rest := OnKey(calls[1..], key);
      if calls[0].key == key {
        assert OnKey(calls, key) == [calls[0]] + rest;
        assert ([calls[0]] + rest)[1..] == rest;
        assert Times([calls[0]] + rest) == [calls[0].at] + Times(rest);
        assert ([calls[0].at] + Times(rest))[1..] == Times(rest);
        if rest == [] {
          TimesEnd(calls, from);
        }
      } else {
        assert OnKey(calls, key) == rest;
      }
    }
  }

  lemma {:induction false} TimesEnd(calls: seq<Call>, from: int)
    requires Forward(from, Times(calls)) && calls != []
    ensures from <= calls[0].at <= calls[|calls| - 1].at
    decreases |calls|
  {
    assert Times(calls)[1..] == Times(calls[1..]);
    if |calls| > 1 {
      TimesEnd(calls[1..], calls[0].at);
    }
  }

  /** From any row the limiter can be in, a window of calls passes at most capacity plus earnings. */
  lemma RowWindow(capacity: real, rate: real, row: Option<Bucket>, now: int, window: seq<int>)
    requires capacity >= 1.0 && rate >= 0.0 && RowOk(row, capacity, now) && Forward(now, window) && window != []
    ensures Count(RowDecisions(capacity, rate, row, window)) as real <= capacity + Gain(rate, window[0], window[|window| - 1])
  {
    if row.Some? {
      SameRow(capacity, rate, row.value, window);
      WindowFrom(capacity, rate, row.value, window);
    } else {
      SameDecisionsIff(capacity, rate, window[0], window);
      WindowFrom(capacity, rate, Bucket(capacity, window[0]), window);
    }
  }

  /** A vhost with daily quota Q passes at most 2Q quota checks within any 24 hours, counted over both
      channels, whatever else the limiter serves. */
  lemma TwiceTheQuota(vhostId: string, quota: int, start: int, before: seq<Call>, window: seq<Call>)
    requires quota >= 1 && Forward(start, Times(before + window)) && window != []
    requires forall c | c in before + window && c.key == QuotaKey(vhostId) :: IsQuotaCall(c, vhostId, quota)
    requires window[|window| - 1].at - window[0].at <= DAY
    ensures Passed(TableAfter(map[], before), window, QuotaKey(vhostId)) <= 2 * quota
  {
    var key, capacity := QuotaKey(vhostId), quota as real;
    var rate := capacity / SECONDS_PER_DAY as real;
    var rows := TableAfter(map[], before);
    var now := if before == [] then start else before[|before| - 1].at;
    TimesConcat(before, window);
    ForwardTail(start, Times(before), Times(window));
    TimesLast(before);
    assert forall c | c in before :: c in before + window;
    assert forall c | c in window :: c in before + window;
    RowStaysOk(map[], before, key, capacity, rate, start);
    KeysIndependent(rows, window, key, capacity, rate);
    OnKeyForward(window, key, now);
    var mine := Times(OnKey(window, key));
    if mine != [] {
      RowWindow(capacity, rate, Row(rows, key), now, mine);
      var last := mine[|mine| - 1];
      GainMonotone(rate, mine[0], last, mine[0] + DAY);
      DayEarnsQuota(quota, mine[0]);
    }
  }

  lemma DayEarnsQuota(quota: int, from: int)
    ensures Gain(quota as real / SECONDS_PER_DAY as real, from, from + DAY) == quota as real
  {
    var rate := quota as real / SECONDS_PER_DAY as real;
    assert (from + DAY - from) as real / 1_000_000_000.0 == 86400.0;
    assert rate * 86400.0 == quota as real;
  }

  lemma {:induction false} TimesConcat(a: seq<Call>, b: seq<Call>)
    ensures Times(a + b) == Times(a) + Times(b)
    decreases |a|
  {
    if a == [] {
      assert a + b == b;
    } else {
      assert (a + b)[1..] == a[1..] + b;
      TimesConcat(a[1..], b);
    }
  }

  lemma {:induction false} TimesLast(a: seq<Call>)
    ensures |Times(a)| == |a| && (a != [] ==> Times(a)[|a| - 1] == a[|a| - 1].at)
    decreases |a|
  {
    if a != [] {
      TimesLast(a[1..]);
    }
  }
}
